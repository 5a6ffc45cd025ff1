/**
  The main container of provisioner and deprovisioner Pods and its environment
  (internal/utils/podtemplate.go).  Building the provisioner Pod changes the shared template in
  place, and the changed template is what the deprovisioner Pod is built from later.
 */
module PodTemplate {
  import opened Wrappers

  datatype EnvVar = EnvVar(name: string, value: string)

  datatype Container = Container(
    name: string, image: string, command: seq<string>, args: seq<string>, env: seq<EnvVar>)

  /** What a provisioner adds to the template's main container; no command means the template's. */
  datatype Extras = Extras(command: Option<seq<string>>, env: seq<EnvVar>)

  const MAIN := "main"

  // ---------------------------------------------------------------- the order of names

  predicate Less(a: string, b: string) {
    if b == "" then false
    else if a == "" then true
    else a[0] < b[0] || (a[0] == b[0] && Less(a[1..], b[1..]))
  }

  lemma {:induction false} LessIsTotal(a: string, b: string)
    ensures a == b || Less(a, b) || Less(b, a)
  {
    if a != "" && b != "" && a[0] == b[0] {
      LessIsTotal(a[1..], b[1..]);
      assert a == [a[0]] + a[1..] && b == [b[0]] + b[1..];
    }
  }

  lemma {:induction false} LessIsStrict(a: string, b: string)
    ensures Less(a, b) ==> a != b && !Less(b, a)
  {
    if a != "" && b != "" && a[0] == b[0] {
      LessIsStrict(a[1..], b[1..]);
    }
  }

  lemma {:induction false} LessIsTransitive(a: string, b: string, c: string)
    requires Less(a, b) && Less(b, c)
    ensures Less(a, c)
  {
    if a != "" && a[0] == b[0] && b[0] == c[0] {
      LessIsTransitive(a[1..], b[1..], c[1..]);
    }
  }

  predicate Sorted(env: seq<EnvVar>) {
    forall i, j | 0 <= i < j < |env| :: Less(env[i].name, env[j].name)
  }

  // ---------------------------------------------------------------- environments

  /** The value a process finds under a name: the last one counts. */
  function Lookup(env: seq<EnvVar>, name: string): Option<EnvVar> {
    if env == [] then None
    else if env[|env| - 1].name == name then Some(env[|env| - 1])
    else Lookup(env[..|env| - 1], name)
  }

  /** Puts a variable at its place in a sorted list, over the one of that name. */
  function Insert(env: seq<EnvVar>, v: EnvVar): seq<EnvVar> {
    if env == [] then [v]
    else if env[0].name == v.name then [v] + env[1..]
    else if Less(v.name, env[0].name) then [v] + env
    else [env[0]] + Insert(env[1..], v)
  }

  /** The environment without repetitions, ordered by name. */
  function Unique(env: seq<EnvVar>): seq<EnvVar> {
    if env == [] then [] else Insert(Unique(env[..|env| - 1]), env[|env| - 1])
  }

  lemma {:induction false} LookupFinds(env: seq<EnvVar>, name: string)
    ensures Lookup(env, name).Some? <==> exists i | 0 <= i < |env| :: env[i].name == name
    ensures Lookup(env, name).Some? ==> Lookup(env, name).value in env && Lookup(env, name).value.name == name
  {
    if env != [] {
      LookupFinds(env[..|env| - 1], name);
    }
  }

  lemma {:induction false} LookupConcat(a: seq<EnvVar>, b: seq<EnvVar>, name: string)
    ensures Lookup(a + b, name) == if Lookup(b, name).Some? then Lookup(b, name) else Lookup(a, name)
  {
    if b == [] {
      assert a + b == a;
    } else {
      LookupConcat(a, b[..|b| - 1], name);
      assert (a + b)[..|a + b| - 1] == a + b[..|b| - 1];
    }
  }

  /** In a sorted list the first variable of a name is the last one as well. */
  lemma LookupSorted(env: seq<EnvVar>, name: string)
    requires Sorted(env) && env != []
    ensures Lookup(env, name) == if env[0].name == name then Some(env[0]) else Lookup(env[1..], name)
  {
    assert env == [env[0]] + env[1..];
    LookupConcat([env[0]], env[1..], name);
    LookupFinds(env[1..], name);
    if Lookup(env[1..], name).Some? {
      var i :| 0 <= i < |env[1..]| && env[1..][i].name == name;
      LessIsStrict(env[0].name, env[i + 1].name);
    }
    assert [env[0]][..0] == [];
  }

  lemma {:induction false} InsertSpec(env: seq<EnvVar>, v: EnvVar, name: string)
    requires Sorted(env)
    ensures Sorted(Insert(env, v))
    ensures Lookup(Insert(env, v), name) == if v.name == name then Some(v) else Lookup(env, name)
    ensures forall w | w in Insert(env, v) :: w == v || w in env
  {
    if env == [] {
      assert [v][..0] == [];
    } else {
      var first, rest := env[0], env[1..];
      LookupSorted(env, name);
      var r := Insert(env, v);
      if first.name == v.name {
        SortedCons(v, rest);
        LookupSorted(r, name);
      } else if Less(v.name, first.name) {
        forall w | w in env ensures Less(v.name, w.name) {
          if w != first {
            var i :| 0 < i < |env| && env[i] == w;
            LessIsTransitive(v.name, first.name, w.name);
          }
        }
        SortedCons(v, env);
        LookupSorted(r, name);
      } else {
        InsertSpec(rest, v, name);
        LessIsTotal(first.name, v.name);
        SortedCons(first, Insert(rest, v));
        LookupSorted(r, name);
        assert r[1..] == Insert(rest, v);
      }
    }
  }

  lemma SortedCons(v: EnvVar, env: seq<EnvVar>)
    requires Sorted(env) && forall w | w in env :: Less(v.name, w.name)
    ensures Sorted([v] + env) && ([v] + env)[1..] == env
  {
  }

  /** `Unique` keeps what every name means and orders the names. */
  lemma {:induction false} UniqueSpec(env: seq<EnvVar>, name: string)
    ensures Sorted(Unique(env)) && Lookup(Unique(env), name) == Lookup(env, name)
  {
    if env != [] {
      UniqueSpec(env[..|env| - 1], name);
      InsertSpec(Unique(env[..|env| - 1]), env[|env| - 1], name);
    }
  }

  /** Ordered lists that mean the same are the same. */
  lemma {:induction false} SortedIsCanonical(a: seq<EnvVar>, b: seq<EnvVar>)
    requires Sorted(a) && Sorted(b) && forall n :: Lookup(a, n) == Lookup(b, n)
    ensures a == b
  {
    if a == [] {
      if b != [] {
        LookupFinds(b, b[0].name);
      }
    } else {
      LookupFinds(b, a[0].name);
      LookupSorted(a, a[0].name);
      LookupSorted(b, b[0].name);
      LookupFinds(a, b[0].name);
      var i :| 0 <= i < |b| && b[i] == a[0];
      var j :| 0 <= j < |a| && a[j] == b[0];
      if i != 0 {
        LessIsStrict(b[0].name, a[0].name);
      }
      assert a[0] == b[0];
      forall n ensures Lookup(a[1..], n) == Lookup(b[1..], n) {
        LookupSorted(a, n);
        LookupSorted(b, n);
        NotBelow(a, n);
        NotBelow(b, n);
      }
      SortedIsCanonical(a[1..], b[1..]);
    }
  }

  lemma NotBelow(a: seq<EnvVar>, n: string)
    requires Sorted(a) && a != []
    ensures n == a[0].name ==> Lookup(a[1..], n).None?
  {
    LookupFinds(a[1..], n);
    if n == a[0].name && Lookup(a[1..], n).Some? {
      var i :| 0 <= i < |a[1..]| && a[1..][i].name == n;
      LessIsStrict(a[0].name, a[i + 1].name);
    }
  }

  /** Merging in two steps is merging at once. */
  lemma MergeInSteps(x: seq<EnvVar>, y: seq<EnvVar>)
    ensures Unique(Unique(x) + y) == Unique(x + y)
  {
    forall n ensures Lookup(Unique(Unique(x) + y), n) == Lookup(Unique(x + y), n) {
      UniqueSpec(x, n);
      UniqueSpec(Unique(x) + y, n);
      UniqueSpec(x + y, n);
      LookupConcat(Unique(x), y, n);
      LookupConcat(x, y, n);
    }
    UniqueSpec(Unique(x) + y, "");
    UniqueSpec(x + y, "");
    SortedIsCanonical(Unique(Unique(x) + y), Unique(x + y));
  }

  predicate Agree(a: seq<EnvVar>, b: seq<EnvVar>, name: string) {
    Lookup(a, name) == Lookup(b, name)
  }

  /** Two environments merge to the same list iff they agree on every name. */
  lemma SameUniqueIff(a: seq<EnvVar>, b: seq<EnvVar>)
    ensures Unique(a) == Unique(b) <==> forall n :: Agree(a, b, n)
  {
    forall n ensures Lookup(Unique(a), n) == Lookup(a, n) && Lookup(Unique(b), n) == Lookup(b, n) {
      UniqueSpec(a, n);
      UniqueSpec(b, n);
    }
    if forall n :: Agree(a, b, n) {
      UniqueSpec(a, "");
      UniqueSpec(b, "");
      forall n ensures Lookup(Unique(a), n) == Lookup(Unique(b), n) {
        assert Agree(a, b, n);
      }
      SortedIsCanonical(Unique(a), Unique(b));
    }
    if Unique(a) == Unique(b) {
      forall n ensures Agree(a, b, n) {
        UniqueSpec(a, n);
        UniqueSpec(b, n);
      }
    }
  }

  // ---------------------------------------------------------------- the loops

  predicate SortedNames(names: seq<string>) {
    forall i, j | 0 <= i < j < |names| :: Less(names[i], names[j])
  }

  /** Inserts a new name into an ordered list. */
  method InsertName(names: seq<string>, name: string) returns (r: seq<string>)
    requires SortedNames(names) && name !in names
    ensures SortedNames(r) && forall n :: n in r <==> n == name || n in names
  {
    var i := 0;
    while i < |names| && Less(names[i], name)
      invariant i <= |names| && forall j | 0 <= j < i :: Less(names[j], name)
    {
      i := i + 1;
    }
    r := names[..i] + [name] + names[i..];
    forall j | i <= j < |names| ensures Less(name, names[j]) {
      LessIsTotal(names[i], name);
      if j > i {
        LessIsTransitive(name, names[i], names[j]);
      }
    }
    assert names == names[..i] + names[i..];
  }

  /** The names of a map in order; which name comes next out of the map is not determined. */
  method SortNames(keys: set<string>) returns (names: seq<string>)
    ensures SortedNames(names) && forall n :: n in names <==> n in keys
  {
    var rest := keys;
    names := [];
    while rest != {}
      invariant rest <= keys && SortedNames(names)
      invariant forall n :: n in names <==> n in keys && n !in rest
    {
      var k :| k in rest;
      names := InsertName(names, k);
      rest := rest - {k};
    }
  }

  method UniqueEnv(env: seq<EnvVar>) returns (filtered: seq<EnvVar>)
    ensures filtered == Unique(env)
  {
    var m: map<string, EnvVar> := map[];
    for i := 0 to |env|
      invariant forall n :: n in m <==> Lookup(env[..i], n).Some?
      invariant forall n | n in m :: m[n] == Lookup(env[..i], n).value && m[n].name == n
    {
      assert env[..i + 1][..i] == env[..i];
      m := m[env[i].name := env[i]];
    }
    assert env[..|env|] == env;
    var names := SortNames(m.Keys);
    filtered := [];
    for i := 0 to |names|
      invariant |filtered| == i
      invariant forall j | 0 <= j < i :: names[j] in m && filtered[j] == m[names[j]]
    {
      assert names[i] in names;
      filtered := filtered + [m[names[i]]];
    }
    forall n ensures Lookup(filtered, n) == Lookup(Unique(env), n) {
      UniqueSpec(env, n);
      if n in m {
        var i :| 0 <= i < |names| && names[i] == n;
        SortedLookup(filtered, i);
      } else {
        LookupFinds(filtered, n);
      }
    }
    UniqueSpec(env, "");
    SortedIsCanonical(filtered, Unique(env));
  }

  lemma SortedLookup(env: seq<EnvVar>, i: nat)
    requires Sorted(env) && i < |env|
    ensures Lookup(env, env[i].name) == Some(env[i])
  {
    LookupFinds(env, env[i].name);
    var v := Lookup(env, env[i].name).value;
    var j :| 0 <= j < |env| && env[j] == v;
    LessIsStrict(env[i].name, env[j].name);
    LessIsStrict(env[j].name, env[i].name);
  }

  // ---------------------------------------------------------------- the Pod

  function MainIndex(containers: seq<Container>): (i: nat)
    ensures i <= |containers| && (i < |containers| ==> containers[i].name == MAIN)
    ensures forall j | 0 <= j < i :: containers[j].name != MAIN
  {
    if containers == [] || containers[0].name == MAIN then 0 else 1 + MainIndex(containers[1..])
  }

  function Merged(c: Container, extras: Extras, env: seq<EnvVar>): Container {
    c.(env := Unique(c.env + extras.env + env),
       command := match extras.command case Some(command) => command case None => c.command)
  }

  predicate Runnable(c: Container) {
    c.image != "" && c.command != [] && c.args == []
  }

  /** An annotation wins over the provisioner's variable of that name, and that over the template's. */
  lemma MergedLookup(c: Container, extras: Extras, env: seq<EnvVar>, n: string)
    ensures Lookup(Merged(c, extras, env).env, n) ==
              if Lookup(env, n).Some? then Lookup(env, n)
              else if Lookup(extras.env, n).Some? then Lookup(extras.env, n)
              else Lookup(c.env, n)
    ensures Sorted(Merged(c, extras, env).env)
    ensures Merged(c, extras, env).(env := c.env, command := c.command) == c
  {
    UniqueSpec(c.env + extras.env + env, n);
    LookupConcat(c.env + extras.env, env, n);
    LookupConcat(c.env, extras.env, n);
  }

  /** The Pod template of a provisioner; every Pod built from it shares its containers. */
  class Template {
    var containers: seq<Container>

    constructor (containers: seq<Container>)
      ensures this.containers == containers
    {
      this.containers := containers;
    }

    method FindContainer() returns (i: nat)
      ensures i == MainIndex(containers) && i <= |containers|
      ensures i < |containers| ==> containers[i].name == "main"
      ensures forall j | 0 <= j < i :: containers[j].name != "main"
    {
      i := 0;
      while i < |containers|
        invariant i <= |containers| && MainIndex(containers) == i + MainIndex(containers[i..])
      {
        if containers[i].name == MAIN {
          return;
        }
        assert containers[i..][1..] == containers[i + 1..];
        i := i + 1;
      }
    }

    /** Merges into the template and then checks the result, so a failure leaves the template changed. */
    method NewProvisionerPod(extras: Extras, env: seq<EnvVar>) returns (main: Result<Container>)
      modifies this
      ensures var i := MainIndex(old(containers));
              if i == |old(containers)| then main.Err? && containers == old(containers)
              else
                var merged := Merged(old(containers)[i], extras, env);
                containers == old(containers)[i := merged] &&
                main == if Runnable(merged) then Ok(merged) else Err
      ensures main.Ok? ==>
                main.value.name == "main" && main.value in containers
                && main.value.image != "" && main.value.command != [] && main.value.args == []
                && (extras.command.Some? ==> main.value.command == extras.command.value)
                && forall n | Lookup(env, n).Some? :: Lookup(main.value.env, n) == Lookup(env, n)
      ensures main.Err? ==>
                var i := MainIndex(old(containers));
                i == |old(containers)| || old(containers)[i].image == "" || old(containers)[i].args != []
                || (extras.command.None? && old(containers)[i].command == []) || extras.command == Some([])
    {
      var i := FindContainer();
      if i == |containers| {
        return Err;
      }
      var c := containers[i];
      var merged := UniqueEnv(c.env + extras.env + env);
      forall n ensures Lookup(env, n).Some? ==> Lookup(merged, n) == Lookup(env, n) {
        MergedLookup(c, extras, env, n);
      }
      c := c.(env := merged);
      if extras.command.Some? {
        c := c.(command := extras.command.value);
      }
      containers := containers[i := c];
      assert containers[i] == c;
      if c.image == "" {
        return Err;
      }
      if |c.command| == 0 {
        return Err;
      }
      if |c.args| > 0 {
        return Err;
      }
      return Ok(c);
    }

    /**
      The provisioner Pod is built first and the deprovisioner Pod from the template it left.
      The latter's main container is the one the untouched template would give iff nothing of the
      provisioner shines through.
     */
    method BuildBoth(provisioner: Extras, deprovisioner: Extras, env: seq<EnvVar>)
      returns (first: Result<Container>, second: Result<Container>)
      modifies this
      ensures var i := MainIndex(old(containers));
              first.Ok? && second.Ok? ==>
                i < |old(containers)| &&
                (second.value == Merged(old(containers)[i], deprovisioner, env) <==>
                   Hidden(old(containers)[i], provisioner, deprovisioner, env))
      ensures var i := MainIndex(old(containers));
              i < |old(containers)| ==>
                var left := Merged(old(containers)[i], provisioner, env);
                (first.Ok? <==> Runnable(left)) && (second.Ok? <==> Runnable(Merged(left, deprovisioner, env)))
    {
      first := NewProvisionerPod(provisioner, env);
      ghost var i := MainIndex(old(containers));
      if i < |containers| {
        SameMain(old(containers), containers[i]);
        UntouchedIff(old(containers)[i], provisioner, deprovisioner, env);
      }
      second := NewProvisionerPod(deprovisioner, env);
    }
  }

  lemma {:induction false} SameMain(containers: seq<Container>, c: Container)
    requires MainIndex(containers) < |containers| && c.name == MAIN
    ensures MainIndex(containers[MainIndex(containers) := c]) == MainIndex(containers)
  {
    var i := MainIndex(containers);
    if i > 0 {
      SameMain(containers[1..], c);
      assert containers[i := c][1..] == containers[1..][i - 1 := c];
    }
  }

  /**
    Nothing of the provisioner shines through: the deprovisioner sets a command or the provisioner
    did not change it, and every variable of the provisioner is set again by the deprovisioner or
    the annotations, or has the template's value anyway.
   */
  ghost predicate Hidden(c: Container, provisioner: Extras, deprovisioner: Extras, env: seq<EnvVar>) {
    (deprovisioner.command.Some? || provisioner.command.None? || provisioner.command.value == c.command)
    && forall n :: HiddenVar(c, provisioner, deprovisioner, env, n)
  }

  predicate HiddenVar(c: Container, provisioner: Extras, deprovisioner: Extras, env: seq<EnvVar>, n: string) {
    Lookup(provisioner.env, n).Some? && Lookup(deprovisioner.env + env, n).None? ==>
      Lookup(provisioner.env, n) == Lookup(c.env, n)
  }

  lemma UntouchedIff(c: Container, provisioner: Extras, deprovisioner: Extras, env: seq<EnvVar>)
    ensures Merged(Merged(c, provisioner, env), deprovisioner, env) == Merged(c, deprovisioner, env) <==>
              Hidden(c, provisioner, deprovisioner, env)
  {
    var changed := c.env + provisioner.env + env;
    var later := deprovisioner.env + env;
    assert Unique(changed) + deprovisioner.env + env == Unique(changed) + later;
    assert c.env + deprovisioner.env + env == c.env + later;
    MergeInSteps(changed, later);
    SameUniqueIff(changed + later, c.env + later);
    forall n
      ensures Agree(changed + later, c.env + later, n) <==> HiddenVar(c, provisioner, deprovisioner, env, n)
    {
      LookupConcat(changed, later, n);
      LookupConcat(c.env, later, n);
      LookupConcat(c.env + provisioner.env, env, n);
      LookupConcat(c.env, provisioner.env, n);
      LookupConcat(deprovisioner.env, env, n);
    }
  }

  const EXAMPLE := Container(MAIN, "image", ["deprovision"], [], [])

  /**
    A deprovisioner that sets no command runs the provisioner's: its container is not the one that the
    untouched template would give.
   */
  method DeprovisionerInheritsCommand() returns (t: Template, second: Result<Container>)
    ensures fresh(t) && second.Ok?
    ensures second.value != Merged(EXAMPLE, Extras(None, []), [])
  {
    t := new Template([EXAMPLE]);
    var provisioner, deprovisioner := Extras(Some(["provision"]), []), Extras(None, []);
    assert MainIndex([EXAMPLE]) == 0;
    assert !Hidden(EXAMPLE, provisioner, deprovisioner, []);
    var first;
    first, second := t.BuildBoth(provisioner, deprovisioner, []);
  }
}
