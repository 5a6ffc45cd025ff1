/** The names by which the controllers find a volume and its Pods (internal/utils/strings.go). */
module Names {

  const PROVISIONER := "provisioner"
  const DEPROVISIONER := "deprovisioner"

  /** `digest` stands for the first seven hexadecimal digits of the SHA-256 sum. */
  function ResourceName(owner: string, suffix: string, digest: string -> string): string
    requires |suffix| <= 54
  {
    var maxLen := 63 - 8 - 1 - |suffix|;
    var name := owner + "-" + suffix;
    if |owner| > maxLen then owner[..maxLen] + "-" + digest(name) else name
  }

  function VolumeName(uid: string): string {
    "pvc-" + uid
  }

  /** Every name fits the 63 characters of a label. */
  lemma NameFits(owner: string, suffix: string, digest: string -> string)
    requires |suffix| <= 54 && forall s :: |digest(s)| == 7
    ensures |ResourceName(owner, suffix, digest)| <= 63
  {
  }

  /** A name that is cut keeps the digest of what it was: equal names come from equal owners and roles. */
  lemma CutNamesDiffer(o1: string, s1: string, o2: string, s2: string, digest: string -> string)
    requires |s1| <= 54 && |s2| <= 54 && |o1| + |s1| > 54 && |o2| + |s2| > 54 && forall s :: |digest(s)| == 7
    requires digest(o1 + "-" + s1) == digest(o2 + "-" + s2) ==> o1 + "-" + s1 == o2 + "-" + s2
    requires ResourceName(o1, s1, digest) == ResourceName(o2, s2, digest)
    ensures o1 + "-" + s1 == o2 + "-" + s2
  {
    var n1, n2 := ResourceName(o1, s1, digest), ResourceName(o2, s2, digest);
    assert n1[|n1| - 7..] == digest(o1 + "-" + s1) && n2[|n2| - 7..] == digest(o2 + "-" + s2);
  }

  /** An owner that does not fit beside the role is cut to the length that leaves room for it. */
  lemma CutNameKeepsPrefix(owner: string, suffix: string, digest: string -> string)
    requires |suffix| <= 54 && |owner| + |suffix| > 54
    ensures ResourceName(owner, suffix, digest)[..54 - |suffix|] == owner[..54 - |suffix|]
    ensures |ResourceName(owner, suffix, digest)| == 55 - |suffix| + |digest(owner + "-" + suffix)|
  {
  }

  /** A name that needs no cutting is readable: the owner, a dash, and the role. */
  lemma ShortNamesAreReadable(owner: string, digest: string -> string)
    requires |owner| <= 41
    ensures ResourceName(owner, PROVISIONER, digest) == owner + "-provisioner"
    ensures ResourceName(owner, DEPROVISIONER, digest) == owner + "-deprovisioner"
  {
  }

  /**
    The Pods of different volumes, and the two Pods of one volume, never share a name: over volume
    names of at most 41 characters the name tells the owner and the role.
   */
  lemma PodNamesDiffer(o1: string, r1: string, o2: string, r2: string, digest: string -> string)
    requires |o1| <= 41 && |o2| <= 41
    requires r1 in {PROVISIONER, DEPROVISIONER} && r2 in {PROVISIONER, DEPROVISIONER}
    requires ResourceName(o1, r1, digest) == ResourceName(o2, r2, digest)
    ensures o1 == o2 && r1 == r2
  {
    var n1, n2 := o1 + "-" + r1, o2 + "-" + r2;
    assert ResourceName(o1, r1, digest) == n1 && ResourceName(o2, r2, digest) == n2;
    // The character before the last eleven is a dash for the one role and a letter for the other.
    assert r1 == PROVISIONER ==> n1[|n1| - 12] == '-';
    assert r1 == DEPROVISIONER ==> n1[|n1| - 12] == r1[1] == 'e';
    assert r2 == PROVISIONER ==> n2[|n2| - 12] == '-';
    assert r2 == DEPROVISIONER ==> n2[|n2| - 12] == r2[1] == 'e';
    assert n1[..|o1|] == o1 && n2[..|o2|] == o2;
  }

  /** Volume names made from UUIDs are short enough, and tell the claim. */
  lemma PodNamesTellTheClaim(u1: string, r1: string, u2: string, r2: string, digest: string -> string)
    requires |u1| == 36 && |u2| == 36
    requires r1 in {PROVISIONER, DEPROVISIONER} && r2 in {PROVISIONER, DEPROVISIONER}
    requires ResourceName(VolumeName(u1), r1, digest) == ResourceName(VolumeName(u2), r2, digest)
    ensures u1 == u2 && r1 == r2
  {
    PodNamesDiffer(VolumeName(u1), r1, VolumeName(u2), r2, digest);
    assert VolumeName(u1)[4..] == u1 && VolumeName(u2)[4..] == u2;
  }
}
