/**
  Annotations that become environment variables of the Pods (internal/utils/annotationtoenv.go),
  and their way from the claim over the provisioner Pod to the volume.
 */
module Annotations {
  import opened Wrappers
  import opened PodTemplate

  /** A missing map is nil in the source. */
  type Annotated = Option<map<string, string>>

  datatype Mapping = Mapping(name: string, annotation: string, required: Option<bool>)

  function ValueOf(a: Annotated, key: string): string {
    if a.Some? && key in a.value then a.value[key] else ""
  }

  predicate Needed(m: Mapping) {
    m.required.None? || m.required.value
  }

  function MappedEnv(a: Annotated, mapping: seq<Mapping>): seq<EnvVar> {
    if mapping == [] then []
    else
      var m := mapping[|mapping| - 1];
      MappedEnv(a, mapping[..|mapping| - 1])
      + (if ValueOf(a, m.annotation) != "" then [EnvVar(m.name, ValueOf(a, m.annotation))] else [])
  }

  predicate Complete(a: Annotated, mapping: seq<Mapping>) {
    forall m | m in mapping && Needed(m) :: ValueOf(a, m.annotation) != ""
  }

  /** Reading a key of a map that may be nil. */
  method Get(a: Annotated, key: string) returns (v: string)
    ensures v == ValueOf(a, key)
  {
    v := "";
    if a.Some? && key in a.value {
      v := a.value[key];
    }
  }

  /** Mapping `i` sets the variable: it has this name and its annotation is not empty. */
  predicate Sets(a: Annotated, mapping: seq<Mapping>, name: string, i: int) {
    0 <= i < |mapping| && mapping[i].name == name && ValueOf(a, mapping[i].annotation) != ""
  }

  /** A variable is defined iff some mapping sets it, and the last such mapping gives its value. */
  ghost predicate Defines(env: seq<EnvVar>, a: Annotated, mapping: seq<Mapping>) {
    forall n ::
      (Lookup(env, n).None? ==> forall i :: !Sets(a, mapping, n, i)) &&
      (Lookup(env, n).Some? ==>
         exists i :: Sets(a, mapping, n, i) && (forall j | i < j :: !Sets(a, mapping, n, j))
                     && Lookup(env, n).value == EnvVar(n, ValueOf(a, mapping[i].annotation)))
  }

  /** The indices of the mappings with a non-empty annotation, in order. */
  function SetAt(a: Annotated, mapping: seq<Mapping>): seq<int> {
    if mapping == [] then []
    else
      var last := |mapping| - 1;
      SetAt(a, mapping[..last]) + (if ValueOf(a, mapping[last].annotation) != "" then [last] else [])
  }

  lemma {:induction false} MappedEnvDefines(a: Annotated, mapping: seq<Mapping>)
    ensures Defines(MappedEnv(a, mapping), a, mapping)
  {
    if mapping != [] {
      hide ValueOf;
      var shorter, last := mapping[..|mapping| - 1], |mapping| - 1;
      MappedEnvDefines(a, shorter);
      forall n, i | i < last ensures Sets(a, mapping, n, i) <==> Sets(a, shorter, n, i) {
      }
      var env := MappedEnv(a, mapping);
      forall n
        ensures Lookup(env, n).None? ==> forall i :: !Sets(a, mapping, n, i)
        ensures Lookup(env, n).Some? ==>
                  exists i :: Sets(a, mapping, n, i) && (forall j | i < j :: !Sets(a, mapping, n, j))
                              && Lookup(env, n).value == EnvVar(n, ValueOf(a, mapping[i].annotation))
      {
        if Sets(a, mapping, n, last) {
          assert Lookup(env, n) == Some(EnvVar(n, ValueOf(a, mapping[last].annotation)));
        } else {
          DefinesStill(a, mapping, n);
        }
      }
    }
  }

  /** A mapping that does not set the variable leaves it as it is. */
  lemma DefinesStill(a: Annotated, mapping: seq<Mapping>, n: string)
    requires mapping != [] && !Sets(a, mapping, n, |mapping| - 1)
    ensures Lookup(MappedEnv(a, mapping), n) == Lookup(MappedEnv(a, mapping[..|mapping| - 1]), n)
  {
    var m, before := mapping[|mapping| - 1], MappedEnv(a, mapping[..|mapping| - 1]);
    var added := if ValueOf(a, m.annotation) != "" then [EnvVar(m.name, ValueOf(a, m.annotation))] else [];
    LookupConcat(before, added, n);
    if added != [] {
      assert added[..0] == [];
    }
  }

  lemma {:induction false} MappedEnvInOrder(a: Annotated, mapping: seq<Mapping>)
    ensures |MappedEnv(a, mapping)| == |SetAt(a, mapping)|
    ensures forall k | 0 <= k < |SetAt(a, mapping)| ::
              0 <= SetAt(a, mapping)[k] < |mapping|
              && MappedEnv(a, mapping)[k].name == mapping[SetAt(a, mapping)[k]].name
  {
    if mapping != [] {
      hide ValueOf;
      MappedEnvInOrder(a, mapping[..|mapping| - 1]);
    }
  }

  /** No required annotation is missing or empty; an annotation is required unless the mapping says otherwise. */
  method AnnotationsToEnv(a: Annotated, mapping: seq<Mapping>) returns (env: seq<EnvVar>, ok: bool)
    ensures env == MappedEnv(a, mapping) && Defines(env, a, mapping)
    ensures |env| == |SetAt(a, mapping)|
            && forall k | 0 <= k < |env| ::
                 0 <= SetAt(a, mapping)[k] < |mapping| && env[k].name == mapping[SetAt(a, mapping)[k]].name
    ensures ok <==> forall m | m in mapping && m.required != Some(false) ::
                      a.Some? && m.annotation in a.value && a.value[m.annotation] != ""
  {
    hide Defines;
    MappedEnvDefines(a, mapping);
    MappedEnvInOrder(a, mapping);
    assert forall m :: ValueOf(a, m) != "" <==> a.Some? && m in a.value && a.value[m] != "";
    hide ValueOf;
    env, ok := [], true;
    for i := 0 to |mapping|
      invariant env == MappedEnv(a, mapping[..i]) && (ok <==> Complete(a, mapping[..i]))
    {
      var m := mapping[i];
      assert mapping[..i + 1][..i] == mapping[..i] && mapping[..i + 1] == mapping[..i] + [m];
      var v := Get(a, m.annotation);
      if v != "" {
        env := env + [EnvVar(m.name, v)];
      } else if Needed(m) && ok {
        ok := false;
      }
    }
    assert mapping[..|mapping|] == mapping;
  }

  predicate Maps(mapping: seq<Mapping>, key: string) {
    exists m | m in mapping :: m.annotation == key
  }

  /** The destination afterwards: mapped keys have the source's value, or none; others are kept. */
  ghost predicate Copied(src: Annotated, before: Annotated, after: Annotated, mapping: seq<Mapping>) {
    after.Some? &&
    forall key :: ValueOf(after, key) ==
                    if src.Some? && Maps(mapping, key) then ValueOf(src, key) else ValueOf(before, key)
  }

  method CopyAnnotations(src: Annotated, dest: Annotated, mapping: seq<Mapping>) returns (r: Annotated)
    ensures Copied(src, dest, r, mapping)
  {
    var b := if dest.Some? then dest.value else map[];
    for i := 0 to |mapping|
      invariant forall key :: ValueOf(Some(b), key) ==
                  if src.Some? && Maps(mapping[..i], key) then ValueOf(src, key) else ValueOf(dest, key)
    {
      ghost var before := b;
      if src.Some? {
        var key := mapping[i].annotation;
        b := b[key := if key in src.value then src.value[key] else ""];
      }
      forall key ensures Maps(mapping[..i + 1], key) <==> Maps(mapping[..i], key) || key == mapping[i].annotation {
        assert mapping[..i + 1] == mapping[..i] + [mapping[i]];
      }
    }
    assert mapping[..|mapping|] == mapping;
    return Some(b);
  }

  // ---------------------------------------------------------------- from the claim to the volume

  const SPEC := "k8storagex.mgoltzsche.github.com/provisioner-spec"
  const PVC_NAME := "k8storagex.mgoltzsche.github.com/pvc-name"
  const PVC_NAMESPACE := "k8storagex.mgoltzsche.github.com/pvc-namespace"
  const PVC_REF := "k8storagex.mgoltzsche.github.com/pvc"

  /** What the controllers themselves put under a key, on the Pod after copying or on the volume later. */
  datatype Stamps = Stamps(spec: string, name: string, namespace: string, claimRef: string) {
    function At(key: string): Option<string> {
      if key == PVC_REF then Some(claimRef)
      else if key == PVC_NAMESPACE then Some(namespace)
      else if key == PVC_NAME then Some(name)
      else if key == SPEC then Some(spec)
      else None
    }
  }

  function OnPod(pod: map<string, string>, stamps: Stamps): map<string, string> {
    pod[SPEC := stamps.spec][PVC_NAME := stamps.name][PVC_NAMESPACE := stamps.namespace]
  }

  lemma ValueOnPod(pod: map<string, string>, stamps: Stamps, key: string)
    ensures key != PVC_REF ==>
              ValueOf(Some(OnPod(pod, stamps)), key) ==
                if stamps.At(key).Some? then stamps.At(key).value else ValueOf(Some(pod), key)
  {
  }

  /** No mapped annotation is stamped over, unless with the value it has anyway. */
  ghost predicate Undisturbed(claim: Annotated, mapping: seq<Mapping>, stamps: Stamps) {
    forall m | m in mapping && stamps.At(m.annotation).Some? ::
      stamps.At(m.annotation).value == ValueOf(claim, m.annotation)
  }

  /**
    From the claim to the Pod to the volume: the deprovisioner sees, for every mapped annotation,
    the value the provisioner saw iff it is undisturbed; then it gets the same variables and
    complains about the same annotations.
   */
  method Travel(claim: Annotated, mapping: seq<Mapping>, volume: map<string, string>, stamps: Stamps)
    returns (given: seq<EnvVar>, ok: bool, onVolume: Annotated, later: seq<EnvVar>, laterOk: bool)
    ensures Defines(given, claim, mapping) && Defines(later, onVolume, mapping)
    ensures ok <==> forall m | m in mapping && m.required != Some(false) ::
                      claim.Some? && m.annotation in claim.value && claim.value[m.annotation] != ""
    ensures (forall m | m in mapping :: ValueOf(onVolume, m.annotation) == ValueOf(claim, m.annotation)) <==>
              Undisturbed(claim, mapping, stamps)
    ensures Undisturbed(claim, mapping, stamps) ==> later == given && laterOk == ok
  {
    hide OnPod, Defines;
    given, ok := AnnotationsToEnv(claim, mapping);
    var pod := CopyAnnotations(claim, Some(map[]), mapping);
    var onPod := OnPod(pod.value, stamps);
    var pv := CopyAnnotations(Some(onPod), Some(volume), mapping);
    onVolume := Some(pv.value[PVC_REF := stamps.claimRef]);
    forall m | m in mapping
      ensures ValueOf(onVolume, m.annotation) ==
                if stamps.At(m.annotation).Some? then stamps.At(m.annotation).value
                else ValueOf(claim, m.annotation)
    {
      assert Maps(mapping, m.annotation);
      ValueOnPod(pod.value, stamps, m.annotation);
    }
    if Undisturbed(claim, mapping, stamps) {
      SameMapped(claim, onVolume, mapping);
    }
    later, laterOk := AnnotationsToEnv(onVolume, mapping);
  }

  lemma {:induction false} SameMapped(a: Annotated, b: Annotated, mapping: seq<Mapping>)
    requires forall m | m in mapping :: ValueOf(a, m.annotation) == ValueOf(b, m.annotation)
    ensures MappedEnv(a, mapping) == MappedEnv(b, mapping) && (Complete(a, mapping) <==> Complete(b, mapping))
  {
    if mapping != [] {
      SameMapped(a, b, mapping[..|mapping| - 1]);
    }
  }
}
