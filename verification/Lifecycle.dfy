/**
  The life of the volume of one claim: the claim controller and the volume controller,
  each in the middle of at most one reconcile, and everything around them
  (internal/controllers/persistentvolumeclaim_controller.go,
  internal/controllers/persistentvolume_controller.go, internal/utils/pod.go).

  The world is seen from one claim UID.  Its volume and its two Pods are found by names that
  are made from the UID and are never shared (module Names), so other claims matter only
  in that one of them may bear the claim's name once the claim is gone.

  A controller takes one step per API request and keeps copies of what it read; a write is
  refused if the object changed since.  Between any two steps, claims and volumes may be edited
  or deleted, Pods may end, requests may fail, and the manager may crash.
 */
module Lifecycle {
  import opened Wrappers

  const FINALIZER := "k8storagex.mgoltzsche.github.com/finalizer"
  const PVC_PROTECTION := "kubernetes.io/pvc-protection"

  datatype Claim = Claim(
    version: nat, deleting: bool, finalizers: seq<string>,
    noProtection: bool, selectedNode: bool, bound: bool)

  /** `recorded`: a deprovisioner success was recorded.  `reclaim`: the reclaim policy is Delete. */
  datatype Volume = Volume(
    version: nat, deleting: bool, finalizers: seq<string>,
    bound: bool, claimRef: bool, recorded: bool, reclaim: bool)

  datatype Phase = Running | Succeeded | Failed

  datatype Pod = Pod(phase: Phase, terminating: bool)

  function Without(strings: seq<string>, s: string): seq<string> {
    if strings == [] then []
    else (if strings[0] == s then [] else [strings[0]]) + Without(strings[1..], s)
  }

  // ---------------------------------------------------------------- the job reconciler

  /** The next API request of `ReconcileJob` or `DeletePod`. */
  datatype Job = Stopping | Removing | Looking | Starting | Reloading

  /** `Done` is `(true, nil)`; `NotDone` stands for every other return; `Completed` runs the callback. */
  datatype Outcome = Continue(job: Job) | Done | NotDone | Completed

  function Judge(p: Pod): Outcome {
    if p.phase.Succeeded? then Completed else NotDone
  }

  /** `ok`: the request succeeds.  `fine`: the Pod can be built. */
  function JobNext(job: Job, pod: Option<Pod>, ok: bool, fine: bool): (Outcome, Option<Pod>) {
    if !ok then (NotDone, pod)
    else
      match job
      case Stopping => (if pod.None? then Done else Continue(Removing), pod)
      case Removing =>
        if pod.None? then (Done, pod) else (NotDone, Some(pod.value.(terminating := true)))
      case Looking => (if pod.None? then Continue(Starting) else Judge(pod.value), pod)
      case Starting =>
        if !fine then (NotDone, pod)
        else if pod.None? then (NotDone, Some(Pod(Running, false)))
        else (Continue(Reloading), pod)
      case Reloading => (if pod.None? then NotDone else Judge(pod.value), pod)
  }

  // ---------------------------------------------------------------- where the controllers stand

  datatype ClaimStage =
    | ClaimIdle
    | SaveClaim(base: Claim, saved: Claim)
    | Cleanup(claim: Claim, job: Job)
    | FindVolume(claim: Claim)
    | DeleteVolume(claim: Claim)
    | CheckVolume(claim: Claim)
    | Provision(claim: Claim, job: Job)
    | MakeVolume(claim: Claim)

  datatype VolumeStage =
    | VolumeIdle
    | AskClaim(volume: Volume, attempt: nat)
    | DropRef(base: Volume, attempt: nat)
    | ReadAgain(attempt: nat)
    | Deprovision(volume: Volume, job: Job)
    | Record(base: Volume)
    | DropFinalizer(base: Volume)

  /**
    `created` and `made` remember that the claim and the volume were created, `provisions` and
    `frees` count the provisioner and deprovisioner Pods that succeeded, `panics` the crashes that
    the claim controller caused itself.
   */
  datatype World = World(
    claim: Option<Claim>, namesake: bool, volume: Option<Volume>,
    provisioner: Option<Pod>, deprovisioner: Option<Pod>,
    claimStage: ClaimStage, volumeStage: VolumeStage, version: nat,
    created: bool, made: bool, provisions: nat, frees: nat, panics: nat)

  const START := World(None, false, None, None, None, ClaimIdle, VolumeIdle, 0, false, false, 0, 0, 0)

  // ---------------------------------------------------------------- writes

  /** An object that is being deleted goes with its last finalizer. */
  function PutClaim(w: World, c: Claim): World {
    w.(version := w.version + 1,
       claim := if c.deleting && c.finalizers == [] then None else Some(c.(version := w.version + 1)))
  }

  function PutVolume(w: World, v: Volume): World {
    w.(version := w.version + 1,
       volume := if v.deleting && v.finalizers == [] then None else Some(v.(version := w.version + 1)))
  }

  /** A write of a copy whose original was read at `base`. */
  function WriteClaim(w: World, base: Claim, saved: Claim): World {
    if w.claim.Some? && w.claim.value.version == base.version then PutClaim(w, saved) else w
  }

  predicate Current(w: World, base: Volume) {
    w.volume.Some? && w.volume.value.version == base.version
  }

  function WriteVolume(w: World, base: Volume, saved: Volume): World {
    if Current(w, base) then PutVolume(w, saved) else w
  }

  function MarkVolume(w: World): World {
    if w.volume.Some? && !w.volume.value.deleting then PutVolume(w, w.volume.value.(deleting := true)) else w
  }

  // ---------------------------------------------------------------- the claim controller

  /** What a reconcile does with the claim it read; `should`: a known provisioner should act on it. */
  function ClaimRead(c: Claim, should: bool): ClaimStage {
    if c.deleting then
      if PVC_PROTECTION in c.finalizers then
        if c.noProtection then SaveClaim(c, c.(finalizers := Without(c.finalizers, PVC_PROTECTION)))
        else ClaimIdle
      else if FINALIZER in c.finalizers && |c.finalizers| == 1 then Cleanup(c, Stopping)
      else ClaimIdle
    else if !should || c.bound then ClaimIdle
    else if FINALIZER !in c.finalizers then SaveClaim(c, c.(finalizers := c.finalizers + [FINALIZER]))
    else CheckVolume(c)
  }

  function Release(c: Claim): ClaimStage {
    SaveClaim(c, c.(finalizers := Without(c.finalizers, FINALIZER)))
  }

  function NewVolume(version: nat, reclaim: bool): Volume {
    Volume(version, false, [FINALIZER], false, true, false, reclaim)
  }

  /**
    The next request of the claim controller.  `complete`: no required annotation of the claim is empty,
    judged once the volume was looked up.  `fine`: a Pod can be built, or its spec can be read back.
    `reclaim`: the policy of the volume template.
   */
  function ClaimNext(w: World, ok: bool, complete: bool, fine: bool, reclaim: bool): World {
    var idle := w.(claimStage := ClaimIdle);
    match w.claimStage
    case ClaimIdle => w
    case SaveClaim(base, saved) => if ok then WriteClaim(idle, base, saved) else idle
    case Cleanup(c, job) =>
      var (outcome, pod) := JobNext(job, w.provisioner, ok, fine);
      w.(provisioner := pod,
         claimStage := match outcome
                       case Continue(next) => Cleanup(c, next)
                       case Done => FindVolume(c)
                       case NotDone => ClaimIdle
                       case Completed => ClaimIdle)
    case FindVolume(c) =>
      if !ok then idle
      else if w.volume.Some? && w.volume.value.reclaim then w.(claimStage := DeleteVolume(c))
      else w.(claimStage := Release(c))
    case DeleteVolume(c) =>
      if !ok then idle else MarkVolume(w.(claimStage := Release(c)))
    case CheckVolume(c) =>
      if !ok then idle
      else if w.volume.Some? && !complete then
        Crashed(w).(panics := w.panics + 1)  // the missing annotation is reported with a nil error
      else if w.volume.None? && c.selectedNode && complete then w.(claimStage := Provision(c, Looking))
      else w.(claimStage := Provision(c, Stopping))
    case Provision(c, job) =>
      var (outcome, pod) := JobNext(job, w.provisioner, ok, fine);
      w.(provisioner := pod,
         claimStage := match outcome
                       case Continue(next) => Provision(c, next)
                       case Completed => MakeVolume(c)
                       case Done => ClaimIdle
                       case NotDone => ClaimIdle)
    case MakeVolume(c) =>
      if !ok || !fine || w.volume.Some? then idle
      else w.(claimStage := Provision(c, Removing), made := true,
              version := w.version + 1, volume := Some(NewVolume(w.version + 1, reclaim)))
  }

  function Crashed(w: World): World {
    w.(claimStage := ClaimIdle, volumeStage := VolumeIdle)
  }

  // ---------------------------------------------------------------- the volume controller

  /** One round of `canDeprovision`; `readable`: the provisioner spec on the volume can be read. */
  function Look(v: Volume, attempt: nat, readable: bool): VolumeStage {
    if v.bound then VolumeIdle
    else if v.claimRef then AskClaim(v, attempt)
    else if !readable then VolumeIdle
    else Deprovision(v, if v.recorded then Stopping else Looking)
  }

  function VolumeRead(v: Volume, readable: bool): VolumeStage {
    if v.deleting && FINALIZER in v.finalizers then Look(v, 0, readable) else VolumeIdle
  }

  /** The next request of the volume controller.  `known`: the provisioner is known, its spec readable. */
  function VolumeNext(w: World, ok: bool, known: bool): World {
    var idle := w.(volumeStage := VolumeIdle);
    match w.volumeStage
    case VolumeIdle => w
    case AskClaim(v, attempt) =>
      if !ok || w.claim.Some? || w.namesake || !known then idle
      else w.(volumeStage := DropRef(v, attempt))
    case DropRef(base, attempt) =>
      if !ok then idle
      else if w.volume.Some? && !Current(w, base) then w.(volumeStage := ReadAgain(attempt))
      else WriteVolume(idle, base, base.(claimRef := false))
    case ReadAgain(attempt) =>
      if !ok || w.volume.None? || attempt + 1 >= 2 then idle
      else w.(volumeStage := Look(w.volume.value, attempt + 1, known))
    case Deprovision(v, job) =>
      var (outcome, pod) := JobNext(job, w.deprovisioner, ok, known);
      w.(deprovisioner := pod,
         volumeStage := match outcome
                        case Continue(next) => Deprovision(v, next)
                        case Completed => Record(v)
                        case Done => DropFinalizer(v)
                        case NotDone => VolumeIdle)
    case Record(base) => if ok then WriteVolume(idle, base, base.(recorded := true)) else idle
    case DropFinalizer(base) =>
      if ok then WriteVolume(idle, base, base.(finalizers := Without(base.finalizers, FINALIZER))) else idle
  }

  // ---------------------------------------------------------------- steps

  datatype Step =
    | ReconcileClaim(should: bool)
    | ClaimStep(ok: bool, complete: bool, fine: bool, reclaim: bool)
    | ReconcileVolume(readable: bool)
    | VolumeStep(ok: bool, known: bool)
    | Crash
    | CreateClaim(finalizers: seq<string>, noProtection: bool, selectedNode: bool)
    | EditClaim(finalizers: seq<string>, noProtection: bool, selectedNode: bool, bound: bool)
    | MarkClaimDeleted
    | SetNamesake(exists_: bool)
    | EditVolume(finalizers: seq<string>, bound: bool)
    | MarkVolumeDeleted
    | ProvisionerEnds(success: bool)
    | DeprovisionerEnds(success: bool)
    | ProvisionerGone
    | DeprovisionerGone

  predicate SameFinalizer(a: seq<string>, b: seq<string>) {
    FINALIZER in a <==> FINALIZER in b
  }

  predicate MayEnd(pod: Option<Pod>) {
    pod.Some? && pod.value.phase.Running?
  }

  function Ended(pod: Option<Pod>, success: bool): Option<Pod>
    requires pod.Some?
  {
    Some(pod.value.(phase := if success then Succeeded else Failed))
  }

  /** The world after a step; a step that is not possible changes nothing. */
  function Next(w: World, s: Step): World {
    match s
    case ReconcileClaim(should) =>
      if !w.claimStage.ClaimIdle? || w.claim.None? then w
      else w.(claimStage := ClaimRead(w.claim.value, should))
    case ClaimStep(ok, complete, fine, reclaim) => ClaimNext(w, ok, complete, fine, reclaim)
    case ReconcileVolume(readable) =>
      if !w.volumeStage.VolumeIdle? || w.volume.None? then w
      else w.(volumeStage := VolumeRead(w.volume.value, readable))
    case VolumeStep(ok, known) => VolumeNext(w, ok, known)
    case Crash => Crashed(w)
    case CreateClaim(finalizers, noProtection, selectedNode) =>
      if w.created || w.namesake || FINALIZER in finalizers then w
      else PutClaim(w.(created := true), Claim(0, false, finalizers, noProtection, selectedNode, false))
    case EditClaim(finalizers, noProtection, selectedNode, bound) =>
      if w.claim.None? || !SameFinalizer(finalizers, w.claim.value.finalizers) then w
      else PutClaim(w, w.claim.value.(finalizers := finalizers, noProtection := noProtection,
                                      selectedNode := selectedNode, bound := bound))
    case MarkClaimDeleted =>
      if w.claim.None? then w else PutClaim(w, w.claim.value.(deleting := true))
    case SetNamesake(exists_) => if exists_ && w.claim.Some? then w else w.(namesake := exists_)
    case EditVolume(finalizers, bound) =>
      if w.volume.None? || !SameFinalizer(finalizers, w.volume.value.finalizers) then w
      else PutVolume(w, w.volume.value.(finalizers := finalizers, bound := bound))
    case MarkVolumeDeleted => MarkVolume(w)
    case ProvisionerEnds(success) =>
      if !MayEnd(w.provisioner) then w
      else w.(provisioner := Ended(w.provisioner, success),
              provisions := if success then w.provisions + 1 else w.provisions)
    case DeprovisionerEnds(success) =>
      if !MayEnd(w.deprovisioner) then w
      else w.(deprovisioner := Ended(w.deprovisioner, success),
              frees := if success then w.frees + 1 else w.frees)
    case ProvisionerGone =>
      if w.provisioner.Some? && w.provisioner.value.terminating then w.(provisioner := None) else w
    case DeprovisionerGone =>
      if w.deprovisioner.Some? && w.deprovisioner.value.terminating then w.(deprovisioner := None) else w
  }

  function Run(w: World, steps: seq<Step>): World {
    if steps == [] then w else Next(Run(w, steps[..|steps| - 1]), steps[|steps| - 1])
  }
}
