/** Deprovisioning gets somewhere: each reconcile waits for the Pod or comes closer to the end. */
module DeprovisioningProgress {
  import opened Wrappers
  import opened Lifecycle
  import opened LifecycleProofs

  /** The Pod as a request finds it, whether the request succeeds, and whether a Pod can be built. */
  datatype Request = Request(pod: Option<Pod>, ok: bool, fine: bool)

  /** A job and its requests; the Pod may change in between.  `callback`: the success callback is done. */
  function JobRun(job: Job, callback: bool, requests: seq<Request>): Outcome
    decreases requests
  {
    if requests == [] then Continue(job)
    else
      match JobNext(job, requests[0].pod, requests[0].ok, requests[0].fine).0
      case Continue(next) => JobRun(next, callback, requests[1..])
      case Completed => if callback then JobRun(Removing, callback, requests[1..]) else NotDone
      case Done => Done
      case NotDone => NotDone
  }

  /** A whole `ReconcileJob`: it deletes the Pod unless it should run. */
  function ReconcileJob(shouldRun: bool, callback: bool, requests: seq<Request>): Outcome {
    JobRun(if shouldRun then Looking else Stopping, callback, requests)
  }

  predicate FoundAbsent(r: Request) {
    r.ok && r.pod.None?
  }

  predicate FoundSucceeded(r: Request) {
    r.ok && r.pod.Some? && r.pod.value.phase.Succeeded?
  }

  predicate MustSucceed(job: Job) {
    !job.Stopping? && !job.Removing?
  }

  /** How many requests a job may still take. */
  function Budget(job: Job): nat {
    match job
    case Removing => 1
    case Stopping => 2
    case Reloading => 2
    case Starting => 3
    case Looking => 4
  }

  /** The k-th request found the Pod absent, and one before it found it succeeded if that is asked for. */
  ghost predicate DoneAt(requests: seq<Request>, k: nat, afterSuccess: bool) {
    k < |requests| && FoundAbsent(requests[k])
    && (afterSuccess ==> exists j | 0 <= j < k :: FoundSucceeded(requests[j]))
  }

  lemma {:induction false} JobRunDone(job: Job, callback: bool, requests: seq<Request>)
    ensures JobRun(job, callback, requests).Done? ==>
              (MustSucceed(job) ==> callback) && exists k: nat :: DoneAt(requests, k, MustSucceed(job))
    ensures |requests| >= Budget(job) ==> !JobRun(job, callback, requests).Continue?
    decreases requests
  {
    if requests != [] {
      var r, rest := requests[0], requests[1..];
      var outcome := JobNext(job, r.pod, r.ok, r.fine).0;
      if outcome.Done? {
        assert DoneAt(requests, 0, MustSucceed(job));
      } else if outcome.Continue? || outcome.Completed? {
        var next := if outcome.Continue? then outcome.job else Removing;
        JobRunDone(next, callback, rest);
        if JobRun(job, callback, requests).Done? {
          var k: nat :| DoneAt(rest, k, MustSucceed(next));
          if outcome.Completed? {
            assert FoundSucceeded(requests[0]);
          } else if MustSucceed(next) {
            var j :| 0 <= j < k && FoundSucceeded(rest[j]);
            assert FoundSucceeded(requests[j + 1]);
          }
          assert DoneAt(requests, k + 1, MustSucceed(job));
        }
      }
    }
  }

  /**
    `ReconcileJob` reports done without an error only if a request found the Pod absent.  If the job
    should run, an earlier request found the Pod succeeded and the callback was done.
    It takes at most four requests.
   */
  lemma DoneMeansAbsent(shouldRun: bool, callback: bool, requests: seq<Request>)
    ensures ReconcileJob(shouldRun, callback, requests).Done? ==>
              (shouldRun ==> callback) && exists k: nat :: DoneAt(requests, k, shouldRun)
    ensures |requests| >= 4 ==> !ReconcileJob(shouldRun, callback, requests).Continue?
  {
    JobRunDone(if shouldRun then Looking else Stopping, callback, requests);
  }

  /** A volume that can be deprovisioned: marked, not bound, its claim gone, and nobody at work on it. */
  ghost predicate Deprovisionable(w: World) {
    Inv(w) && VolumeHeld(w) && w.volume.value.deleting && !w.volume.value.bound
    && w.claim.None? && !w.namesake && w.volumeStage.VolumeIdle?
  }

  /** Nothing to do but wait for the Pod: it works, it is going, or it failed. */
  ghost predicate Waiting(w: World)
    requires w.volume.Some?
  {
    w.deprovisioner.Some? &&
    (if w.volume.value.recorded then w.deprovisioner.value.terminating
     else !w.deprovisioner.value.phase.Succeeded?)
  }

  predicate PodFailed(w: World) {
    w.deprovisioner.Some? && w.deprovisioner.value.phase.Failed?
  }

  /** The steps left: drop the claim reference, create the Pod, record its success, delete it, drop the finalizer. */
  function Rank(w: World): nat {
    if w.volume.None? || FINALIZER !in w.volume.value.finalizers then 0
    else if w.volume.value.recorded then
      if w.deprovisioner.None? then 1
      else if w.deprovisioner.value.terminating then 2
      else 3
    else if w.deprovisioner.None? then (if w.volume.value.claimRef then 7 else 6)
    else if w.deprovisioner.value.phase.Succeeded? then 4
    else 5
  }

  /** A whole reconcile of the volume in which every request succeeds. */
  function Reconciled(w: World): World {
    Next(Next(Next(w, ReconcileVolume(true)), VolumeStep(true, true)), VolumeStep(true, true))
  }

  /** What the reconcile of a deprovisionable volume does, case by case. */
  lemma ReconciledCases(w: World)
    requires Deprovisionable(w)
    ensures var v := w.volume.value;
            var bumped := w.version + 1;
            Reconciled(w) ==
              if v.claimRef then
                w.(version := bumped, volume := Some(v.(version := bumped, claimRef := false)))
              else if v.recorded && w.deprovisioner.None? then
                PutVolume(w, v.(finalizers := Without(v.finalizers, FINALIZER)))
              else if v.recorded then
                w.(deprovisioner := Some(w.deprovisioner.value.(terminating := true)))
              else if w.deprovisioner.None? then
                w.(deprovisioner := Some(Pod(Running, false)))
              else if w.deprovisioner.value.phase.Succeeded? then
                w.(version := bumped, volume := Some(v.(version := bumped, recorded := true)))
              else w
  {
  }

  /** Each reconcile either waits for the Pod and changes nothing, or strictly lowers the rank. */
  lemma ReconcileProgresses(w: World)
    requires Deprovisionable(w)
    ensures var w' := Reconciled(w);
            if Waiting(w) then w' == w
            else Rank(w') < Rank(w) &&
                 (if Rank(w') > 0 then Deprovisionable(w') else w'.frees == 1 && w'.deprovisioner.None?)
    ensures !PodFailed(w) ==> !PodFailed(Reconciled(w))
  {
    ReconciledCases(w);
    WithoutMembers(w.volume.value.finalizers, FINALIZER);
    var w1 := Next(w, ReconcileVolume(true));
    NextKeeps(w, ReconcileVolume(true));
    NextKeeps(w1, VolumeStep(true, true));
    NextKeeps(Next(w1, VolumeStep(true, true)), VolumeStep(true, true));
  }

  /** The Pod moves on: a running one succeeds, one that was deleted goes. */
  function PodMoves(w: World): World {
    Next(Next(w, DeprovisionerEnds(true)), DeprovisionerGone)
  }

  lemma PodProgresses(w: World)
    requires Deprovisionable(w)
    ensures var w' := PodMoves(w);
            Deprovisionable(w') && Rank(w') <= Rank(w) &&
            (Waiting(w) && !PodFailed(w) ==> Rank(w') < Rank(w)) && (!PodFailed(w) ==> !PodFailed(w'))
  {
  }

  /** Reconciles and moves of the Pod in turn. */
  function Driven(w: World, n: nat): World
    decreases n
  {
    if n == 0 then w else Driven(PodMoves(Reconciled(w)), n - 1)
  }

  /** The finalizer is dropped, the storage was freed once, and the Pod is gone. */
  ghost predicate Ended(w: World) {
    Rank(w) == 0 && w.frees == 1 && w.deprovisioner.None?
  }

  lemma RankIsPositive(w: World)
    requires Deprovisionable(w)
    ensures w.volume.Some? && Rank(w) > 0
  {
  }

  lemma PodAbsent(w: World)
    requires w.deprovisioner.None?
    ensures PodMoves(w) == w
  {
  }

  /**
    A volume whose deprovisioner has not failed is deprovisioned within `Rank` rounds: the
    finalizer is dropped, the storage is freed exactly once.
   */
  lemma {:induction false} DeprovisioningEnds(w: World, n: nat)
    requires Deprovisionable(w) && n >= Rank(w)
    requires !PodFailed(w)
    ensures exists m: nat | m <= n :: Ended(Driven(w, m))
    decreases n
  {
    hide Deprovisionable, Rank, Reconciled, PodMoves;
    var w1 := Reconciled(w);
    RankIsPositive(w);
    ReconcileProgresses(w);
    if Rank(w1) == 0 {
      PodAbsent(w1);
      assert Driven(w, 1) == Driven(w1, 0);
    } else {
      PodProgresses(w1);
      var w2 := PodMoves(w1);
      DeprovisioningEnds(w2, n - 1);
      var m: nat :| m <= n - 1 && Ended(Driven(w2, m));
      assert Driven(w, m + 1) == Driven(w2, m);
    }
  }

  /** Reconciles and moves of the Pod do not get past a failed deprovisioner Pod. */
  lemma {:induction false} FailedPodBlocks(w: World, n: nat)
    requires Deprovisionable(w) && PodFailed(w) && !w.deprovisioner.value.terminating
    ensures Driven(w, n) == w
    decreases n
  {
    if n > 0 {
      ReconcileProgresses(w);
      FailedPodBlocks(w, n - 1);
    }
  }

  /** When all requests succeed, deprovisioning comes to its end iff the deprovisioner Pod has not failed. */
  lemma DeprovisioningEndsIff(w: World)
    requires Deprovisionable(w)
    ensures (exists m: nat :: Ended(Driven(w, m))) <==> !PodFailed(w)
  {
    if PodFailed(w) {
      forall m: nat ensures !Ended(Driven(w, m)) {
        FailedPodBlocks(w, m);
      }
    } else {
      DeprovisioningEnds(w, Rank(w));
    }
  }
}
