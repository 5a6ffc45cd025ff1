/**
  The crash that the claim controller causes: with a volume at hand, a missing annotation is reported
  through an error that is nil (internal/controllers/persistentvolumeclaim_controller.go).
 */
module ManagerCrash {
  import opened Wrappers
  import opened Lifecycle
  import opened LifecycleProofs

  /** A reconcile of the claim up to the point where its annotations are looked at. */
  function Checked(w: World, should: bool, ok: bool, complete: bool): World {
    Next(Next(w, ReconcileClaim(should)), ClaimStep(ok, complete, true, true))
  }

  /** The claim is neither bound nor being deleted, and its volume exists. */
  ghost predicate Exposed(w: World) {
    w.claim.Some? && !w.claim.value.deleting && !w.claim.value.bound && w.volume.Some?
  }

  /**
    The reconcile of a claim crashes the manager iff the claim is neither bound nor being deleted, its
    volume exists, and a required annotation is empty, given that the claim is the provisioner's and
    the volume can be looked up.  The crash takes the volume controller down, too.
   */
  lemma ReconcilePanicsIff(w: World, should: bool, ok: bool, complete: bool)
    requires Inv(w) && w.claimStage.ClaimIdle?
    ensures if should && ok && Exposed(w) && !complete
            then Checked(w, should, ok, complete) == w.(panics := w.panics + 1, volumeStage := VolumeIdle)
            else Checked(w, should, ok, complete).panics == w.panics
  {
  }

  lemma ClaimNextPanics(w: World, s: Step)
    requires s.ClaimStep?
    ensures Next(w, s).panics ==
              w.panics + if w.claimStage.CheckVolume? && s.ok && !s.complete && w.volume.Some? then 1 else 0
  {
    hide JobNext, Without;
  }

  lemma OthersDoNotPanic(w: World, s: Step)
    requires !s.ClaimStep?
    ensures Next(w, s).panics == w.panics
  {
    hide JobNext, Look, Without, ClaimRead;
  }

  /** In every run, no other step crashes the manager, and none for a claim read as bound or being deleted. */
  lemma PanicsIff(steps: seq<Step>, s: Step)
    ensures var w := Run(START, steps);
            Next(w, s).panics != w.panics <==>
              s.ClaimStep? && s.ok && !s.complete && w.volume.Some?
              && w.claimStage.CheckVolume? && !w.claimStage.claim.deleting && !w.claimStage.claim.bound
  {
    RunKeeps(START, steps) by {
      InitInv();
    }
    var w := Run(START, steps);
    hide Next, Run;
    if s.ClaimStep? {
      ClaimNextPanics(w, s);
    } else {
      OthersDoNotPanic(w, s);
    }
  }

  /** The manager restarts and reconciles the claim, again and again. */
  function Restarted(w: World, n: nat): World {
    if n == 0 then w else Checked(Restarted(w, n - 1), true, true, false)
  }

  lemma CheckedKeeps(w: World, should: bool, ok: bool, complete: bool)
    requires Inv(w)
    ensures Inv(Checked(w, should, ok, complete))
  {
    hide Inv, Next;
    NextKeeps(w, ReconcileClaim(should));
    NextKeeps(Next(w, ReconcileClaim(should)), ClaimStep(ok, complete, true, true));
  }

  /** As long as nobody acts, every restart ends in the next crash. */
  lemma {:induction false} CrashLoop(w: World, n: nat)
    requires Inv(w) && w.claimStage.ClaimIdle? && Exposed(w) && n > 0
    ensures Inv(Restarted(w, n))
    ensures Restarted(w, n) == w.(panics := w.panics + n, volumeStage := VolumeIdle)
  {
    hide Inv, Checked;
    var before := Restarted(w, n - 1);
    if n > 1 {
      CrashLoop(w, n - 1);
    }
    ReconcilePanicsIff(before, true, true, false);
    CheckedKeeps(before, true, true, false);
  }

  /** The provisioner succeeds, the volume is made, and its Pod is deleted. */
  lemma VolumeSetUp(w: World, steps: seq<Step>)
    requires steps == [ProvisionerEnds(true), ReconcileClaim(true), GO, GO, GO, GO, ProvisionerGone]
    requires w == START.(created := true, version := 2, provisioner := Some(Pod(Running, false)),
                         claim := Some(Claim(2, false, [FINALIZER], false, true, false)))
    ensures Run(w, steps) ==
              w.(provisions := 1, made := true, version := 3, volume := Some(NewVolume(3, true)), provisioner := None)
  {
    Unfold7(w, steps);
    var c := w.claim.value;
    var w1 := w.(provisioner := Some(Pod(Succeeded, false)), provisions := 1);
    assert Next(w, steps[0]) == w1;
    assert Next(w1, steps[1]) == w1.(claimStage := CheckVolume(c));
    var w3 := w1.(claimStage := Provision(c, Looking));
    assert Next(w1.(claimStage := CheckVolume(c)), GO) == w3;
    var w4 := w1.(claimStage := MakeVolume(c));
    assert Next(w3, GO) == w4;
    var w5 := w1.(made := true, version := 3, volume := Some(NewVolume(3, true)), claimStage := Provision(c, Removing));
    assert Next(w4, GO) == w5;
    var w6 := w5.(claimStage := ClaimIdle, provisioner := Some(Pod(Succeeded, true)));
    assert Next(w5, GO) == w6;
  }

  /** It does happen: an annotation is removed after the volume was made and before the claim is bound. */
  lemma PanicReachable() returns (steps: seq<Step>)
    ensures Run(START, steps).panics == 1
  {
    var a := [CreateClaim([], false, true), ReconcileClaim(true), GO, ReconcileClaim(true), GO, GO, GO];
    var b := [ProvisionerEnds(true), ReconcileClaim(true), GO, GO, GO, GO, ProvisionerGone];
    LostSetUp(a);
    VolumeSetUp(Run(START, a), b);
    RunRun(START, a, b);
    InitInv();
    RunKeeps(START, a + b);
    var w := Run(START, a + b);
    ReconcilePanicsIff(w, true, true, false);
    OneMore(START, a + b, ReconcileClaim(true));
    OneMore(START, a + b + [ReconcileClaim(true)], ClaimStep(true, false, true, true));
    steps := a + b + [ReconcileClaim(true)] + [ClaimStep(true, false, true, true)];
  }
}
