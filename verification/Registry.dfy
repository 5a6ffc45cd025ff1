/**
  The registry of provisioners with its disabled keys
  (internal/controllers/storageprovisioner_registry.go).
 */
module Registry {
  import opened Wrappers

  /** A StorageProvisioner as a value; `key` is the provisioner name that claims refer to. */
  datatype Spec = Spec(name: string, namespace: string, key: string, rest: string)

  /** The StorageProvisioner object that callers hold and may change at any time. */
  class StorageProvisioner {
    var spec: Spec

    constructor (spec: Spec)
      ensures this.spec == spec
    {
      this.spec := spec;
    }

    method DeepCopy() returns (copy: StorageProvisioner)
      ensures fresh(copy) && copy.spec == spec
    {
      copy := new StorageProvisioner(spec);
    }
  }

  datatype Act = Put(spec: Spec) | Delete(key: string)

  /** The same resource: a repeated Put of it is an update, any other is a duplicate. */
  predicate SameResource(a: Spec, b: Spec) {
    a.name == b.name && a.namespace == b.namespace
  }

  // ---------------------------------------------------------------- the history

  /** The registry after an act; `None` marks a disabled key. */
  function After(entries: map<string, Option<Spec>>, valid: Spec -> bool, act: Act): map<string, Option<Spec>> {
    match act
    case Put(p) =>
      if !valid(p) then entries
      else if p.key in entries && (entries[p.key].None? || !SameResource(p, entries[p.key].value))
      then entries[p.key := None]
      else entries[p.key := Some(p)]
    case Delete(key) => entries - {key}
  }

  function Replay(history: seq<Act>, valid: Spec -> bool): map<string, Option<Spec>> {
    if history == [] then map[]
    else After(Replay(history[..|history| - 1], valid), valid, history[|history| - 1])
  }

  function Found(entries: map<string, Option<Spec>>, key: string): Option<Option<Spec>> {
    if key in entries then Some(entries[key]) else None
  }

  /** The valid Puts of a key since it was last deleted. */
  function PutsSinceDelete(history: seq<Act>, valid: Spec -> bool, key: string): seq<Spec> {
    if history == [] then []
    else
      var before, act := PutsSinceDelete(history[..|history| - 1], valid, key), history[|history| - 1];
      match act
      case Delete(k) => if k == key then [] else before
      case Put(p) => if p.key == key && valid(p) then before + [p] else before
  }

  /** There are such Puts and all of them are of one resource. */
  ghost predicate Unambiguous(puts: seq<Spec>) {
    puts != [] && forall i, j | 0 <= i < |puts| && 0 <= j < |puts| :: SameResource(puts[i], puts[j])
  }

  /** The key resolves to a provisioner. */
  ghost predicate Resolves(history: seq<Act>, valid: Spec -> bool, key: string) {
    Unambiguous(PutsSinceDelete(history, valid, key))
  }

  /** The entry of a key tells exactly what the history says about it. */
  lemma {:induction false} HistoryDecides(history: seq<Act>, valid: Spec -> bool, key: string)
    ensures var entries, puts := Replay(history, valid), PutsSinceDelete(history, valid, key);
            (key in entries <==> puts != []) &&
            (key in entries && entries[key].Some? <==> Unambiguous(puts)) &&
            (key in entries && entries[key].Some? ==> entries[key].value == puts[|puts| - 1])
  {
    if history != [] {
      var before, act := history[..|history| - 1], history[|history| - 1];
      HistoryDecides(before, valid, key);
      var old_, puts := PutsSinceDelete(before, valid, key), PutsSinceDelete(history, valid, key);
      if act.Put? && act.spec.key == key && valid(act.spec) {
        assert puts == old_ + [act.spec];
        if Unambiguous(puts) && old_ != [] {
          assert forall i | 0 <= i < |old_| :: puts[i] == old_[i];
          assert SameResource(puts[|old_|], puts[|old_| - 1]);
        }
        if Unambiguous(old_) && SameResource(act.spec, old_[|old_| - 1]) {
          assert forall i | 0 <= i < |puts| :: SameResource(puts[i], act.spec);
        }
      }
    }
  }

  // ---------------------------------------------------------------- the registry

  /**
    The entries are objects of the registry's own; null marks a disabled key.  `owned` holds every
    object the registry has stored, none of which a caller ever gets.
   */
  class ProvisionerRegistry {
    const valid: Spec -> bool
    var provisioners: map<string, StorageProvisioner?>
    ghost var owned: set<object>
    ghost var history: seq<Act>

    /** What is stored under a key: nothing, a disabled entry, or a provisioner. */
    ghost function Entry(key: string): Option<Option<Spec>>
      reads this, provisioners.Values
    {
      if key !in provisioners then None
      else if provisioners[key] == null then Some(None)
      else Some(Some(provisioners[key].spec))
    }

    ghost predicate Valid()
      reads this, provisioners.Values
    {
      this !in owned
      && (forall k | k in provisioners && provisioners[k] != null :: provisioners[k] in owned)
      && forall k :: Entry(k) == Found(Replay(history, valid), k)
    }

    constructor (valid: Spec -> bool)
      ensures Valid() && this.valid == valid && history == [] && fresh(owned)
    {
      this.valid := valid;
      provisioners, owned, history := map[], {}, [];
    }

    method Put(p: StorageProvisioner) returns (ok: bool)
      requires Valid()
      modifies this
      ensures Valid() && history == old(history) + [Act.Put(p.spec)] && fresh(owned - old(owned))
      ensures ok <==> valid(p.spec) && Unambiguous(PutsSinceDelete(history, valid, p.spec.key))
    {
      hide Unambiguous, PutsSinceDelete;
      ghost var act := Act.Put(p.spec);
      assert (history + [act])[..|history|] == history;
      HistoryDecides(history + [act], valid, p.spec.key);
      if !valid(p.spec) {
        history := history + [act];
        return false;
      }
      var key := p.spec.key;
      assert Entry(key) == Found(Replay(history, valid), key);
      if key in provisioners
         && (provisioners[key] == null || p.spec.name != provisioners[key].spec.name
             || p.spec.namespace != provisioners[key].spec.namespace)
      {
        SetEntry(key, null, act);
        return false;
      }
      var copy := p.DeepCopy();
      SetEntry(key, copy, act);
      return true;
    }

    /** Stores an object of the registry's own under a key, or disables the key. */
    method SetEntry(key: string, p: StorageProvisioner?, ghost act: Act)
      requires Valid()
      requires After(Replay(history, valid), valid, act) ==
                 Replay(history, valid)[key := if p == null then None else Some(p.spec)]
      modifies this
      ensures Valid() && history == old(history) + [act]
      ensures owned == if p == null then old(owned) else old(owned) + {p}
    {
      assert (history + [act])[..|history|] == history;
      provisioners := provisioners[key := p];
      if p != null {
        owned := owned + {p};
      }
      history := history + [act];
      forall k ensures Entry(k) == Found(Replay(history, valid), k) {
        assert old(Entry(k)) == Found(Replay(old(history), valid), k);
      }
    }

    /** A key resolves iff its Puts are unambiguous, to a copy of the latest of them. */
    method Get(key: string) returns (p: StorageProvisioner?)
      requires Valid()
      ensures var puts := PutsSinceDelete(history, valid, key);
              (p != null <==> Unambiguous(puts)) &&
              (p != null ==> fresh(p) && p.spec == puts[|puts| - 1])
    {
      HistoryDecides(history, valid, key);
      assert Entry(key) == Found(Replay(history, valid), key);
      if key in provisioners && provisioners[key] != null {
        p := provisioners[key].DeepCopy();
      } else {
        p := null;
      }
    }

    method Delete(key: string)
      requires Valid()
      modifies this
      ensures Valid() && history == old(history) + [Act.Delete(key)] && owned == old(owned)
    {
      ghost var act := Act.Delete(key);
      assert (history + [act])[..|history|] == history;
      provisioners := provisioners - {key};
      history := history + [act];
      forall k ensures Entry(k) == Found(Replay(history, valid), k) {
        assert old(Entry(k)) == Found(Replay(old(history), valid), k);
      }
    }

    /**
      What the controller does when a StorageProvisioner is gone: it deletes the key of an empty
      object, so a key resolves afterwards iff it is not empty and resolved before, and to the same Put.
     */
    method ForgetMissing()
      requires Valid()
      modifies this
      ensures Valid() && history == old(history) + [Act.Delete("")] && owned == old(owned)
      ensures forall key | key != "" ::
                PutsSinceDelete(history, valid, key) == PutsSinceDelete(old(history), valid, key)
      ensures forall key ::
                Resolves(history, valid, key) <==> key != "" && Resolves(old(history), valid, key)
    {
      Delete("");
      assert history[..|history| - 1] == old(history);
    }

    /** Whatever a caller does to an object it passed in or got out, the registry stays as it is. */
    method CallerChanges(p: StorageProvisioner, spec: Spec)
      requires Valid() && p !in owned
      modifies p
      ensures Valid() && forall key :: Entry(key) == old(Entry(key))
    {
      p.spec := spec;
    }
  }

  /** A valid provisioner with a key is put, its resource is removed, and it is still resolved. */
  method RemovedStillResolves(p: StorageProvisioner, valid: Spec -> bool)
    returns (registry: ProvisionerRegistry, found: StorageProvisioner?)
    requires valid(p.spec) && p.spec.key != ""
    ensures fresh(registry) && registry.history == [Act.Put(p.spec), Act.Delete("")]
    ensures found != null && fresh(found) && found.spec == p.spec
  {
    registry := new ProvisionerRegistry(valid);
    assert PutsSinceDelete([], valid, p.spec.key) == [];
    assert [Act.Put(p.spec)][..0] == [];
    assert PutsSinceDelete([Act.Put(p.spec)], valid, p.spec.key) == [] + [p.spec];
    var ok := registry.Put(p);
    registry.ForgetMissing();
    found := registry.Get(p.spec.key);
  }

  /** A second resource with the key of a registered one disables the key: neither of them is resolved. */
  method DuplicateDisables(p: StorageProvisioner, q: StorageProvisioner, valid: Spec -> bool)
    returns (registry: ProvisionerRegistry, ok: bool, found: StorageProvisioner?)
    requires valid(p.spec) && valid(q.spec) && p.spec.key == q.spec.key
    ensures fresh(registry)
    ensures p.spec.name != q.spec.name || p.spec.namespace != q.spec.namespace ==> !ok && found == null
    ensures p.spec.name == q.spec.name && p.spec.namespace == q.spec.namespace ==>
              ok && found != null && found.spec == q.spec
  {
    registry := new ProvisionerRegistry(valid);
    var key := p.spec.key;
    var a, b := Act.Put(p.spec), Act.Put(q.spec);
    assert PutsSinceDelete([], valid, key) == [];
    assert [a][..0] == [] && [a, b][..1] == [a] && [a] + [b] == [a, b];
    assert PutsSinceDelete([a], valid, key) == [] + [p.spec];
    var puts := PutsSinceDelete([a, b], valid, key);
    assert puts == [p.spec, q.spec];
    assert SameResource(puts[0], puts[1]) ==> Unambiguous(puts);
    var _ := registry.Put(p);
    ok := registry.Put(q);
    found := registry.Get(key);
  }
}
