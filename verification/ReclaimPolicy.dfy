/**
  What the controllers leave alone: volumes that are to be retained, bound or claimed, and everything
  when a verdict is against it (internal/controllers).
 */
module ReclaimPolicy {
  import opened Wrappers
  import opened Lifecycle
  import opened LifecycleProofs

  // ---------------------------------------------------------------- the reclaim policy

  /** The volume is to be retained and is not being deleted. */
  ghost predicate Retained(w: World) {
    w.volume.Some? && !w.volume.value.reclaim && !w.volume.value.deleting
  }

  lemma ClaimStepRetains(w: World, s: Step)
    requires Inv(w) && Retained(w) && s.ClaimStep?
    ensures Next(w, s).volume == w.volume
  {
    hide JobNext, Without, ClaimRead;
  }

  lemma VolumeStepRetains(w: World, s: Step)
    requires Inv(w) && Retained(w) && s.VolumeStep?
    ensures Next(w, s) == w
  {
  }

  /** No step of a controller or of the environment but one marks a retained volume. */
  lemma StepRetains(w: World, s: Step)
    requires Inv(w) && Retained(w) && s != MarkVolumeDeleted
    ensures Retained(Next(w, s))
  {
    match s
    case ClaimStep(_, _, _, _) => ClaimStepRetains(w, s);
    case VolumeStep(_, _) => VolumeStepRetains(w, s);
    case _ => hide ClaimNext, VolumeNext;
  }

  lemma {:induction false} RunRetains(w: World, steps: seq<Step>)
    requires Inv(w) && Retained(w) && MarkVolumeDeleted !in steps
    ensures Inv(Run(w, steps)) && Retained(Run(w, steps))
  {
    if steps != [] {
      hide Inv, Retained, Next;
      var before, last := steps[..|steps| - 1], steps[|steps| - 1];
      assert last in steps && forall s | s in before :: s in steps;
      RunRetains(w, before);
      NextKeeps(Run(w, before), last);
      StepRetains(Run(w, before), last);
    }
  }

  /** A volume carries the policy of the step that made it. */
  lemma PolicyIsStored(w: World, s: Step)
    requires Inv(w) && !w.made && Next(w, s).made
    ensures s.ClaimStep? && Next(w, s).volume.Some? && Next(w, s).volume.value.reclaim == s.reclaim
            && !Next(w, s).volume.value.deleting
  {
    hide JobNext, Without, ClaimRead, Look;
  }

  lemma ClaimStepKeepsPolicy(w: World, s: Step)
    requires Inv(w) && s.ClaimStep? && w.made
    ensures Next(w, s).made && (w.volume.None? ==> Next(w, s).volume.None?)
    ensures w.volume.Some? && Next(w, s).volume.Some? ==>
              Next(w, s).volume.value.reclaim == w.volume.value.reclaim
  {
    hide JobNext, Without, ClaimRead;
  }

  lemma VolumeStepKeepsPolicy(w: World, s: Step)
    requires Inv(w) && s.VolumeStep? && w.made
    ensures Next(w, s).made && (w.volume.None? ==> Next(w, s).volume.None?)
    ensures w.volume.Some? && Next(w, s).volume.Some? ==>
              Next(w, s).volume.value.reclaim == w.volume.value.reclaim
  {
    hide JobNext, Without, Look, ClaimSide, ClaimStageInv, VolumeSide;
  }

  /** A volume keeps its policy, and one that is gone does not come back. */
  lemma PolicyStays(w: World, s: Step)
    requires Inv(w) && w.made
    ensures Next(w, s).made && (w.volume.None? ==> Next(w, s).volume.None?)
    ensures w.volume.Some? && Next(w, s).volume.Some? ==>
              Next(w, s).volume.value.reclaim == w.volume.value.reclaim
  {
    match s
    case ClaimStep(_, _, _, _) => ClaimStepKeepsPolicy(w, s);
    case VolumeStep(_, _) => VolumeStepKeepsPolicy(w, s);
    case _ => hide ClaimNext, VolumeNext;
  }

  /** While it exists, a volume keeps that policy, in every run. */
  lemma {:induction false} PolicyForever(w: World, steps: seq<Step>)
    requires Inv(w) && w.volume.Some?
    ensures Inv(Run(w, steps)) && Run(w, steps).made
    ensures Run(w, steps).volume.Some? ==> Run(w, steps).volume.value.reclaim == w.volume.value.reclaim
  {
    if steps != [] {
      var before, last := steps[..|steps| - 1], steps[|steps| - 1];
      PolicyForever(w, before);
      hide Inv, Next;
      NextKeeps(Run(w, before), last);
      PolicyStays(Run(w, before), last);
    }
  }

  /**
    In every run: storage whose volume was made to be retained stays, whatever becomes of the claim, unless
    somebody else marks the volume.  It is never freed, and no deprovisioner Pod ever exists.
   */
  lemma RetainedIsNeverFreed(a: seq<Step>, s: Step, b: seq<Step>)
    requires !Run(START, a).made && Next(Run(START, a), s).made && s.ClaimStep? && !s.reclaim
    requires MarkVolumeDeleted !in b
    ensures var w := Run(START, a + [s] + b);
            w.volume.Some? && !w.volume.value.deleting && w.frees == 0 && w.deprovisioner.None?
  {
    InitInv();
    RunKeeps(START, a);
    PolicyIsStored(Run(START, a), s);
    NextKeeps(Run(START, a), s);
    OneMore(START, a, s);
    RunRetains(Run(START, a + [s]), b);
    RunRun(START, a + [s], b);
  }

  // ---------------------------------------------------------------- what the volume controller waits for

  /** Whatever the volume controller works on was read as marked, held by our finalizer, and not bound. */
  ghost predicate ReadToFree(w: World) {
    match w.volumeStage
    case VolumeIdle => true
    case ReadAgain(attempt) => attempt <= 1
    case AskClaim(v, attempt) => !v.bound && v.deleting && FINALIZER in v.finalizers && v.claimRef && attempt <= 1
    case DropRef(v, attempt) => !v.bound && v.deleting && FINALIZER in v.finalizers && v.claimRef && attempt <= 1
    case Deprovision(v, _) => !v.bound && v.deleting && FINALIZER in v.finalizers && !v.claimRef
    case Record(v) => !v.bound && v.deleting && FINALIZER in v.finalizers && !v.claimRef
    case DropFinalizer(v) => !v.bound && v.deleting && FINALIZER in v.finalizers && !v.claimRef
  }

  /** What a look at the volume leads to, if it is marked and held. */
  lemma LookReads(w: World, v: Volume, attempt: nat, readable: bool)
    requires v.deleting && FINALIZER in v.finalizers && attempt <= 1
    ensures ReadToFree(w.(volumeStage := Look(v, attempt, readable)))
  {
  }

  lemma VolumeStepReads(w: World, s: Step)
    requires Inv(w) && ReadToFree(w) && s.VolumeStep?
    ensures ReadToFree(Next(w, s))
  {
    hide JobNext, Without, Look, ClaimSide, ClaimStageInv, VolumeSide, Versions;
    if w.volumeStage.ReadAgain? {
      var attempt := w.volumeStage.attempt;
      if s.ok && w.volume.Some? && attempt + 1 < 2 {
        LookReads(w, w.volume.value, attempt + 1, s.known);
      }
    }
  }

  lemma StepReads(w: World, s: Step)
    requires Inv(w) && ReadToFree(w)
    ensures ReadToFree(Next(w, s))
  {
    match s
    case VolumeStep(_, _) => VolumeStepReads(w, s);
    case ClaimStep(_, _, _, _) => ClaimStepKeepsVolumeStage(w, s);
    case _ => hide ClaimNext, VolumeNext, Inv;
  }

  lemma ClaimStepKeepsVolumeStage(w: World, s: Step)
    requires s.ClaimStep?
    ensures Next(w, s).volumeStage == w.volumeStage || Next(w, s).volumeStage.VolumeIdle?
  {
    hide JobNext, Without, ClaimRead;
  }

  lemma {:induction false} AlwaysReadToFree(steps: seq<Step>)
    ensures ReadToFree(Run(START, steps))
  {
    if steps != [] {
      hide Inv, Next, ReadToFree;
      var before := steps[..|steps| - 1];
      AlwaysReadToFree(before);
      InitInv();
      RunKeeps(START, before);
      StepReads(Run(START, before), steps[|steps| - 1]);
    } else {
      assert ReadToFree(START);
    }
  }

  /** With step `j` the volume controller asked for the claim, found none of that name, and knew the provisioner. */
  ghost predicate FoundNoClaim(steps: seq<Step>, j: nat) {
    j < |steps| && steps[j] == VolumeStep(true, true)
    && var w := Run(START, steps[..j]);
       w.volumeStage.AskClaim? && w.claim.None? && !w.namesake
  }

  lemma EntersDropRef(w: World, s: Step)
    requires Next(w, s).volumeStage.DropRef?
    ensures w.volumeStage.DropRef?
            || (s == VolumeStep(true, true) && w.volumeStage.AskClaim? && w.claim.None? && !w.namesake)
  {
    hide JobNext, Without, ClaimRead;
    if s.ClaimStep? {
      ClaimStepKeepsVolumeStage(w, s);
    }
  }

  lemma {:induction false} DropRefWasAsked(steps: seq<Step>) returns (j: nat)
    requires Run(START, steps).volumeStage.DropRef?
    ensures FoundNoClaim(steps, j)
  {
    var before, last := steps[..|steps| - 1], steps[|steps| - 1];
    EntersDropRef(Run(START, before), last);
    if Run(START, before).volumeStage.DropRef? {
      j := DropRefWasAsked(before);
      assert steps[..j] == before[..j];
    } else {
      j := |before|;
    }
  }

  lemma LosesClaimRef(w: World, s: Step)
    requires Inv(w) && w.volume.Some? && w.volume.value.claimRef
    requires Next(w, s).volume.Some? && !Next(w, s).volume.value.claimRef
    ensures w.volumeStage.DropRef?
  {
    hide JobNext, Without, ClaimRead, Look;
  }

  /**
    In every run, the claim reference of a volume is dropped only after the volume controller found no
    claim of that name and knew the provisioner; while a claim bears the name it waits.
   */
  lemma ReferenceDroppedOnlyWithoutClaim(steps: seq<Step>, s: Step) returns (j: nat)
    requires var w := Run(START, steps);
             w.volume.Some? && w.volume.value.claimRef
             && Next(w, s).volume.Some? && !Next(w, s).volume.value.claimRef
    ensures FoundNoClaim(steps, j)
  {
    InitInv();
    RunKeeps(START, steps);
    LosesClaimRef(Run(START, steps), s);
    j := DropRefWasAsked(steps);
  }

  /** A conflict at the first attempt to drop the reference is met by reading the volume and asking once more. */
  lemma ConflictTriesOnceMore(w: World, known: bool)
    requires w.volumeStage.DropRef? && w.volume.Some? && w.volumeStage.base.version != w.volume.value.version
    requires w.volume.value.claimRef && !w.volume.value.bound
    ensures var w' := Next(Next(w, VolumeStep(true, known)), VolumeStep(true, known));
            w' == w.(volumeStage := if w.volumeStage.attempt == 0 then AskClaim(w.volume.value, 1) else VolumeIdle)
  {
  }

  // ---------------------------------------------------------------- verdicts

  /** A request that fails, and a verdict that is against it, ends the reconcile and changes no object. */
  lemma VerdictsStop(w: World)
    ensures var r := Next(w, VolumeStep(false, true));
            r == w.(volumeStage := VolumeIdle)
    ensures w.volumeStage.AskClaim? && (w.claim.Some? || w.namesake) ==>
              Next(w, VolumeStep(true, true)) == w.(volumeStage := VolumeIdle)
    ensures w.volumeStage.AskClaim? ==> Next(w, VolumeStep(true, false)) == w.(volumeStage := VolumeIdle)
    ensures w.volumeStage.VolumeIdle? && w.volume.Some? && !w.volume.value.claimRef ==>
              Next(w, ReconcileVolume(false)) == w
    ensures w.claimStage.ClaimIdle? && w.claim.Some? && !w.claim.value.deleting ==>
              Next(w, ReconcileClaim(false)) == w
    ensures forall fine, complete, reclaim ::
              Next(w, ClaimStep(false, complete, fine, reclaim)) == w.(claimStage := ClaimIdle)
  {
  }

  /** A Pod that cannot be built is not started, and a volume whose spec is unreadable is not made. */
  lemma UnbuiltClaimPod(w: World, complete: bool, reclaim: bool)
    ensures w.provisioner.None? ==> Next(w, ClaimStep(true, complete, false, reclaim)).provisioner.None?
    ensures !w.made ==> !Next(w, ClaimStep(true, complete, false, reclaim)).made
  {
    hide Without, ClaimRead;
  }

  lemma UnbuiltVolumePod(w: World)
    ensures w.deprovisioner.None? ==> Next(w, VolumeStep(true, false)).deprovisioner.None?
  {
    hide Without, Look;
  }
}
