/**
  Cache contents in the local image store: mounting, committing and pruning volumes
  (internal/layerfs/store.go) over the store and the garbage collector of module Prune.

  Only local images are modelled (no image option is given).  A volume is a container: a set of
  changes on top of the image it was created from.  Commits put the cache's name on a new image
  and take it off the old one.
 */
module LayerStore {
  import opened Wrappers
  import opened Images
  import Prune

  type Files = map<string, string>

  /** Changed files; `None` marks a removed one. */
  type Changes = map<string, Option<string>>

  function Overlay(base: Files, changes: Changes): Files {
    map p | p in base.Keys + changes.Keys && (p in changes ==> changes[p].Some?) ::
      if p in changes then changes[p].value else base[p]
  }

  /** The image id is empty if the volume was created from scratch, `dir` if no directory was given. */
  datatype Mounted = Mounted(image: string, changes: Changes, dir: string)

  datatype CacheName = CacheName(namespace: string, name: string)

  /** The name of the image that holds the contents of a cache. */
  function LocalImageName(cache: CacheName): string {
    "localhost/cache/" + cache.namespace + "/" + cache.name + ":latest"
  }

  // ---------------------------------------------------------------- the specification

  /**
    What a user sees: the contents of every cache and live volume, and the mount directories on the host.
    `K` is how caches are told apart, by their own names or by the names of their images.
   */
  datatype View<K> = View(caches: map<K, Files>, volumes: map<string, LiveVolume>, dirs: set<string>)

  datatype LiveVolume = LiveVolume(files: Files, scratch: bool, changed: bool, dir: string)

  /**
    `dir`: the host directory given with the request, if any.

    `mounted`: the volume can be mounted.  `saved`: its directory is recorded.  `undone`: if it cannot be
    mounted, the container is deleted again.  `removable`: so is the directory.

    `stuck`: the directories that cannot be unmounted and removed.  `unmounts`: the container is
    unmounted without an error.  `stored`: the commit succeeds.  `cancelled`: the request is
    cancelled before the container is deleted.  `dropped`: the container can be deleted.
   */
  datatype Op<K> =
    | Mount(volume: string, cache: K, dir: string, mounted: bool, saved: bool, undone: bool, removable: bool)
    | Write(volume: string, path: string, data: Option<string>)
    | Unmount(volume: string, cache: K, dir: string, commit: bool, stuck: set<string>,
              unmounts: bool, stored: bool, cancelled: bool, dropped: bool)
    | Collect

  function Contents<K>(s: View<K>, cache: K): Files {
    if cache in s.caches then s.caches[cache] else map[]
  }

  /** The volume still shows the image it was created from. */
  predicate Unchanged(v: LiveVolume) {
    !v.changed && !v.scratch
  }

  /** A directory that exists cannot be mounted to. */
  predicate Occupied<K>(s: View<K>, dir: string) {
    dir != "" && dir in s.dirs
  }

  /**
    Unmounting meets no error that counts.  The directory that was recorded when the volume was mounted
    counts unless it is also the given one, whose error is overwritten.
   */
  predicate Clean<K>(v: LiveVolume, op: Op<K>)
    requires op.Unmount?
  {
    op.unmounts && (v.dir == "" || v.dir == op.dir || v.dir !in op.stuck)
  }

  /** The unmount changes the cache: it commits a volume that was changed or is new. */
  predicate Commits<K>(s: View<K>, op: Op<K>) {
    op.Unmount? && op.volume in s.volumes && op.commit && Clean(s.volumes[op.volume], op) && op.stored
    && !Unchanged(s.volumes[op.volume])
  }

  /** The operation returns no error. */
  predicate Succeeds<K>(s: View<K>, op: Op<K>)
    requires op.Mount? || op.Unmount?
  {
    match op
    case Mount(volume, _, dir, mounted, saved, _, _) =>
      volume !in s.volumes && mounted && (dir == "" || saved) && !Occupied(s, dir)
    case Unmount(volume, _, _, commit, _, _, stored, cancelled, dropped) =>
      volume in s.volumes && Clean(s.volumes[volume], op) && (cancelled || dropped)
      && (commit ==> stored || Unchanged(s.volumes[volume]))
  }

  function Edit(files: Files, path: string, data: Option<string>): Files {
    match data
    case Some(d) => files[path := d]
    case None => files - {path}
  }

  function Dir(dir: string): set<string> {
    if dir == "" then {} else {dir}
  }

  /** The volume that a mount creates; the directory is recorded before it is mounted to. */
  function NewVolume<K>(s: View<K>, cache: K, dir: string, saved: bool): LiveVolume {
    LiveVolume(Contents(s, cache), cache !in s.caches, false, if saved then dir else "")
  }

  function Step<K>(s: View<K>, op: Op<K>): View<K> {
    match op
    case Mount(volume, cache, dir, mounted, saved, undone, removable) =>
      if Occupied(s, dir) then s
      else
        var ok := Succeeds(s, op);
        s.(volumes := if volume !in s.volumes && (ok || !undone)
                      then s.volumes[volume := NewVolume(s, cache, dir, saved)] else s.volumes,
           dirs := if ok || !removable then s.dirs + Dir(dir) else s.dirs)
    case Write(volume, path, data) =>
      if volume !in s.volumes then s
      else
        var v := s.volumes[volume];
        s.(volumes := s.volumes[volume := v.(files := Edit(v.files, path, data), changed := true)])
    case Unmount(volume, cache, dir, _, stuck, _, _, cancelled, dropped) =>
      var dirs := s.dirs - (Dir(dir) - stuck);
      if volume !in s.volumes then s.(dirs := dirs)
      else
        View(if Commits(s, op) then s.caches[cache := s.volumes[volume].files] else s.caches,
             if dropped && !cancelled then s.volumes - {volume} else s.volumes,
             dirs - (Dir(s.volumes[volume].dir) - stuck))
    case Collect => s
  }

  function Run<K>(s: View<K>, ops: seq<Op<K>>): View<K> {
    if ops == [] then s else Step(Run(s, ops[..|ops| - 1]), ops[|ops| - 1])
  }

  // ---------------------------------------------------------------- names and contents

  function FilesOf(contents: map<string, Files>, id: string): Files {
    if id in contents then contents[id] else map[]
  }

  /** The files of the image that bears a name; the first such image counts. */
  function Named(images: seq<Image>, contents: map<string, Files>, name: string): Option<Files> {
    if images == [] then None
    else if name in images[0].names then Some(FilesOf(contents, images[0].id))
    else Named(images[1..], contents, name)
  }

  function NamesOf(images: seq<Image>): set<string> {
    set x, n | x in images && n in x.names :: n
  }

  /** The contents of the caches by image name. */
  function ByName(images: seq<Image>, contents: map<string, Files>): map<string, Files> {
    map n | n in NamesOf(images) && Named(images, contents, n).Some? :: Named(images, contents, n).value
  }

  function DropName(names: seq<string>, name: string): (r: seq<string>)
    ensures forall n :: n in r <==> n in names && n != name
  {
    if names == [] then []
    else (if names[0] == name then [] else [names[0]]) + DropName(names[1..], name)
  }

  function Untagged(images: seq<Image>, name: string): (r: seq<Image>)
    ensures |r| == |images|
    ensures forall i | 0 <= i < |images| :: r[i] == images[i].(names := DropName(images[i].names, name))
  {
    if images == [] then []
    else [images[0].(names := DropName(images[0].names, name))] + Untagged(images[1..], name)
  }

  lemma ByNameAt(images: seq<Image>, contents: map<string, Files>, name: string)
    ensures name in ByName(images, contents) <==> Named(images, contents, name).Some?
    ensures name in ByName(images, contents) ==>
              ByName(images, contents)[name] == Named(images, contents, name).value
  {
  }

  /** Stores that find the same files under every name show the same caches. */
  lemma SameByName(a: seq<Image>, ca: map<string, Files>, b: seq<Image>, cb: map<string, Files>)
    requires forall n :: Named(a, ca, n) == Named(b, cb, n)
    ensures ByName(a, ca) == ByName(b, cb)
  {
    forall n ensures n in ByName(a, ca) <==> n in ByName(b, cb) {
      ByNameAt(a, ca, n);
      ByNameAt(b, cb, n);
    }
  }

  /** Taking untagged images away leaves every name where it was. */
  lemma {:induction false} NamedKept(
    images: seq<Image>, gone: seq<Image>, contents: map<string, Files>, contents': map<string, Files>, name: string)
    requires forall x | x in gone :: x.names == []
    requires forall x | x in Keep(images, gone) :: FilesOf(contents', x.id) == FilesOf(contents, x.id)
    ensures Named(Keep(images, gone), contents', name) == Named(images, contents, name)
  {
    if images != [] {
      NamedKept(images[1..], gone, contents, contents', name);
      var rest := Keep(images[1..], gone);
      if images[0] in gone {
        assert Keep(images, gone) == rest;
      } else {
        assert Keep(images, gone) == [images[0]] + rest;
        assert images[0] in Keep(images, gone);
      }
    }
  }

  /** A commit moves the name to the new image and leaves all others alone. */
  lemma {:induction false} NamedCommitted(
    images: seq<Image>, name: string, image: Image, contents: map<string, Files>, files: Files, n: string)
    requires image.names == [name] && forall x | x in images :: x.id != image.id
    ensures Named(Untagged(images, name) + [image], contents[image.id := files], n)
            == if n == name then Some(files) else Named(images, contents, n)
  {
    if images == [] {
      assert Untagged(images, name) + [image] == [image];
    } else {
      NamedCommitted(images[1..], name, image, contents, files, n);
      assert (Untagged(images, name) + [image])[1..] == Untagged(images[1..], name) + [image];
    }
  }

  lemma ByNameCommitted(
    images: seq<Image>, name: string, image: Image, contents: map<string, Files>, files: Files)
    requires image.names == [name] && forall x | x in images :: x.id != image.id
    ensures ByName(Untagged(images, name) + [image], contents[image.id := files])
            == ByName(images, contents)[name := files]
  {
    var after, before := Untagged(images, name) + [image], ByName(images, contents)[name := files];
    forall n
      ensures n in ByName(after, contents[image.id := files]) <==> n in before
      ensures n in before ==> ByName(after, contents[image.id := files])[n] == before[n]
    {
      NamedCommitted(images, name, image, contents, files, n);
      ByNameAt(after, contents[image.id := files], n);
      ByNameAt(images, contents, n);
    }
  }

  lemma OverlayEdit(base: Files, changes: Changes, path: string, data: Option<string>)
    ensures Overlay(base, changes[path := data]) == Edit(Overlay(base, changes), path, data)
  {
  }

  function Live(contents: map<string, Files>, m: Mounted): LiveVolume {
    LiveVolume(Overlay(FilesOf(contents, m.image), m.changes), m.image == "", m.changes != map[], m.dir)
  }

  function Lives(contents: map<string, Files>, volumes: map<string, Mounted>): map<string, LiveVolume> {
    map v | v in volumes :: Live(contents, volumes[v])
  }

  lemma LivesPut(contents: map<string, Files>, volumes: map<string, Mounted>, v: string, m: Mounted)
    ensures Lives(contents, volumes[v := m]) == Lives(contents, volumes)[v := Live(contents, m)]
  {
  }

  lemma LivesDrop(contents: map<string, Files>, volumes: map<string, Mounted>, v: string)
    ensures Lives(contents, volumes - {v}) == Lives(contents, volumes) - {v}
  {
  }

  /** Contents of images that no live volume uses do not matter to live volumes. */
  lemma LivesKept(contents: map<string, Files>, contents': map<string, Files>, volumes: map<string, Mounted>)
    requires forall v | v in volumes :: FilesOf(contents', volumes[v].image) == FilesOf(contents, volumes[v].image)
    ensures Lives(contents', volumes) == Lives(contents, volumes)
  {
  }

  lemma OverlayNothing(base: Files)
    ensures Overlay(base, map[]) == base
  {
  }

  // ---------------------------------------------------------------- what every operation keeps

  function WithoutContainer(containers: seq<Container>, id: string): (r: seq<Container>)
    ensures forall c :: c in r <==> c in containers && c.id != id
  {
    if containers == [] then []
    else (if containers[0].id == id then [] else [containers[0]]) + WithoutContainer(containers[1..], id)
  }

  /** Every image has files, every volume is a container, and the image below a volume is stored. */
  ghost predicate Coherent(
    images: seq<Image>, containers: seq<Container>, contents: map<string, Files>, volumes: map<string, Mounted>)
  {
    UniqueIds(images) && "" !in contents
    && (forall x | x in images :: x.id in contents)
    && (forall v | v in volumes :: Container(v, volumes[v].image) in containers)
    && (forall c | c in containers :: c.id in volumes && c.imageId == volumes[c.id].image)
    && (forall v | v in volumes && volumes[v].image != "" :: IsStored(images, volumes[v].image))
  }

  lemma CoherentPut(
    images: seq<Image>, containers: seq<Container>, contents: map<string, Files>, volumes: map<string, Mounted>,
    v: string, m: Mounted)
    requires Coherent(images, containers, contents, volumes) && v !in volumes
    requires m.image == "" || IsStored(images, m.image)
    ensures Coherent(images, containers + [Container(v, m.image)], contents, volumes[v := m])
  {
  }

  lemma CoherentChange(
    images: seq<Image>, containers: seq<Container>, contents: map<string, Files>, volumes: map<string, Mounted>,
    v: string, m: Mounted)
    requires Coherent(images, containers, contents, volumes) && v in volumes && m.image == volumes[v].image
    ensures Coherent(images, containers, contents, volumes[v := m])
  {
  }

  lemma CoherentDrop(
    images: seq<Image>, containers: seq<Container>, contents: map<string, Files>, volumes: map<string, Mounted>,
    v: string)
    requires Coherent(images, containers, contents, volumes)
    ensures Coherent(images, WithoutContainer(containers, v), contents, volumes - {v})
  {
  }

  lemma CoherentCommit(
    images: seq<Image>, containers: seq<Container>, contents: map<string, Files>, volumes: map<string, Mounted>,
    name: string, image: Image, files: Files)
    requires Coherent(images, containers, contents, volumes) && image.id != "" && image.id !in contents
    ensures Coherent(Untagged(images, name) + [image], containers, contents[image.id := files], volumes)
    ensures Lives(contents[image.id := files], volumes) == Lives(contents, volumes)
  {
    var after := Untagged(images, name) + [image];
    forall id | IsStored(images, id) ensures IsStored(after, id) {
      var i :| 0 <= i < |images| && images[i].id == id;
      assert after[i] in after;
    }
    forall v | v in volumes
      ensures FilesOf(contents[image.id := files], volumes[v].image) == FilesOf(contents, volumes[v].image)
    {
      if volumes[v].image != "" {
        assert IsStored(images, volumes[v].image);
      }
    }
    LivesKept(contents, contents[image.id := files], volumes);
  }

  /** The image of that id is stored, bears the name, and has these files. */
  ghost predicate Holds(images: seq<Image>, contents: map<string, Files>, id: string, name: string, files: Files) {
    id in contents && contents[id] == files && exists x | x in images :: x.id == id && name in x.names
  }

  /** The top layer of the image that a volume was created from. */
  function BaseLayer(images: seq<Image>, id: string): string {
    if images == [] then ""
    else if images[0].id == id then images[0].topLayer
    else BaseLayer(images[1..], id)
  }

  /** What the store knows after a commit: a layer that is new sits on the top layer of the base image. */
  function WithImage(cat: Catalog, image: Image, config: Config, below: string): Catalog {
    Catalog(if image.topLayer == "" || image.topLayer in cat.layers then cat.layers
            else cat.layers[image.topLayer := below],
            cat.configs[image.id := config],
            cat.unopenable)
  }

  lemma LayersKnownCommit(cat: Catalog, images: seq<Image>, name: string, image: Image, config: Config, below: string)
    requires LayersKnown(cat, images)
    ensures LayersKnown(WithImage(cat, image, config, below), Untagged(images, name) + [image])
  {
    var cat' := WithImage(cat, image, config, below);
    forall x | x in Untagged(images, name) ensures LayerKnown(cat', x) {
      var i :| 0 <= i < |images| && x == images[i].(names := DropName(images[i].names, name));
      assert images[i] in images;
    }
  }

  lemma {:induction false} BaseLayerAt(images: seq<Image>, base: Image)
    requires UniqueIds(images) && base in images
    ensures BaseLayer(images, base.id) == base.topLayer
  {
    if images[0] != base {
      assert images == [images[0]] + images[1..];
      BaseLayerAt(images[1..], base);
    }
  }

  /** The new image is a child of the one its volume was created from if the builder added a layer and an entry. */
  lemma CommitMakesChild(cat: Catalog, base: Image, image: Image, config: Config)
    requires base.id != image.id && image.topLayer !in cat.layers && image.id !in cat.unopenable
    requires SeenConfig(cat, base.id).Some? && ExtendsHistory(config, SeenConfig(cat, base.id).value)
    ensures ChildOf(WithImage(cat, image, config, base.topLayer), image, base)
  {
  }

  /** ... and while it bears its name, the collector keeps the base. */
  lemma CommitKeepsBase(
    cat: Catalog, images: seq<Image>, containers: seq<Container>, base: Image, name: string, image: Image,
    config: Config)
    requires UniqueIds(images) && base in images && base.id != image.id && image.names == [name]
    requires image.topLayer !in cat.layers && image.id !in cat.unopenable
    requires SeenConfig(cat, base.id).Some? && ExtendsHistory(config, SeenConfig(cat, base.id).value)
    ensures var cat' := WithImage(cat, image, config, BaseLayer(images, base.id));
            var base' := base.(names := DropName(base.names, name));
            !Prunable(cat', containers, Untagged(images, name) + [image], base')
  {
    hide ChildOf, Prunable, WithImage, ExtendsHistory, SeenConfig;
    BaseLayerAt(images, base);
    var cat' := WithImage(cat, image, config, BaseLayer(images, base.id));
    var images' := Untagged(images, name) + [image];
    var base' := base.(names := DropName(base.names, name));
    CommitMakesChild(cat, base', image, config);
    assert images'[|images|] == image;
    PrunableStep(cat', containers, images', image);
    PrunableStep(cat', containers, images', base');
  }

  function Surviving(contents: map<string, Files>, images: seq<Image>): map<string, Files> {
    map id | id in contents && (exists x | x in images :: x.id == id) :: contents[id]
  }

  /** Collecting unused, untagged images changes nothing that anybody sees. */
  lemma CoherentCollect(
    images: seq<Image>, containers: seq<Container>, contents: map<string, Files>,
    volumes: map<string, Mounted>, order: seq<Image>)
    requires Coherent(images, containers, contents, volumes)
    requires Harmless(containers, images, [], order)
    ensures var kept := Keep(images, order);
            var files := Surviving(contents, kept);
            Coherent(kept, containers, files, volumes)
            && ByName(kept, files) == ByName(images, contents)
            && Lives(files, volumes) == Lives(contents, volumes)
  {
    var kept := Keep(images, order);
    var files := Surviving(contents, kept);
    KeepUnique(images, order);
    forall v | v in volumes && volumes[v].image != "" ensures IsStored(kept, volumes[v].image) {
      var x :| x in images && x.id == volumes[v].image;
      assert Container(v, volumes[v].image) in containers;
      assert x in kept;
    }
    forall n ensures Named(kept, files, n) == Named(images, contents, n) {
      NamedKept(images, order, contents, files, n);
    }
    SameByName(kept, files, images, contents);
    LivesKept(contents, files, volumes);
  }

  // ---------------------------------------------------------------- the store

  class CacheStore {
    const store: Prune.ImageStore

    /** The files of every image, the changes made in every volume, and the mount directories on the host. */
    var contents: map<string, Files>
    var volumes: map<string, Mounted>
    var dirs: set<string>

    ghost predicate Valid()
      reads this, store
    {
      Coherent(store.images, store.containers, contents, volumes) && LayersKnown(store.catalog, store.images)
    }

    /** What a user sees of this store. */
    ghost function Shows(): View<string>
      reads this, store
    {
      View(ByName(store.images, contents), Lives(contents, volumes), dirs)
    }

    constructor (fails: nat -> bool, blind: Outages)
      ensures Valid() && fresh(store) && Shows() == View(map[], map[], {})
    {
      store := new Prune.ImageStore(Catalog(map[], map[], {}), [], [], fails, blind);
      contents, volumes, dirs := map[], map[], {};
    }

    /** Finds the image that bears a name, as the builder does when nothing is pulled. */
    method FindImage(name: string) returns (image: string)
      requires Valid()
      ensures image == "" <==> name !in Shows().caches
      ensures image != "" ==> IsStored(store.images, image) && Shows().caches[name] == FilesOf(contents, image)
    {
      ByNameAt(store.images, contents, name);
      for i := 0 to |store.images|
        invariant Named(store.images, contents, name) == Named(store.images[i..], contents, name)
      {
        if name in store.images[i].names {
          assert store.images[i] in store.images;
          return store.images[i].id;
        }
      }
      return "";
    }

    /**
      Creates a volume with the latest contents of the cache, or an empty one, at a directory of its own
      if one is given.  If that fails it is undone, and errors of undoing it are not reported.
     */
    method Mount(op: Op<CacheName>) returns (ok: bool)
      requires Valid() && op.Mount?
      modifies this, store
      ensures Valid() && Shows() == Step(old(Shows()), Renamed(op))
      ensures ok <==> Succeeds(old(Shows()), Renamed(op))
      ensures contents == old(contents)
    {
      hide Coherent, ByName, Lives, LayersKnown, LocalImageName;
      var volume, dir, name := op.volume, op.dir, LocalImageName(op.cache);
      ShowsLive(volume);
      if dir != "" {
        if dir in dirs {
          return false;
        }
        dirs := dirs + {dir};
      }
      ok := volume !in volumes;
      if ok {
        Create(volume, name, if op.saved then dir else "");
        ok := op.mounted && (dir == "" || op.saved);
        if !ok && op.undone {
          Drop(volume);
        }
      }
      if !ok && op.removable {
        dirs := dirs - Dir(dir);
      }
    }

    /** Creates the container of a volume from the image of the cache, or from scratch. */
    method Create(volume: string, cache: string, dir: string)
      requires Valid() && volume !in volumes
      modifies this`volumes, store`containers
      ensures Valid() && volumes.Keys == old(volumes).Keys + {volume}
      ensures var before := old(Shows());
              var v := LiveVolume(Contents(before, cache), cache !in before.caches, false, dir);
              volume !in before.volumes && Shows() == before.(volumes := before.volumes[volume := v])
    {
      hide Coherent, ByName, Overlay, IsStored, LayersKnown;
      var image := FindImage(cache);
      var m := Mounted(image, map[], dir);
      CoherentPut(store.images, store.containers, contents, volumes, volume, m);
      LivesPut(contents, volumes, volume, m);
      OverlayNothing(FilesOf(contents, image));
      assert image == "" ==> FilesOf(contents, image) == map[] by {
        NoEmptyId(store.images, store.containers, contents, volumes);
      }
      store.containers := store.containers + [Container(volume, image)];
      volumes := volumes[volume := m];
    }

    /** Deletes the container of a volume. */
    method Drop(volume: string)
      requires Valid()
      modifies this`volumes, store`containers
      ensures Valid() && volumes == old(volumes) - {volume}
      ensures Shows() == old(Shows()).(volumes := old(Shows().volumes) - {volume})
    {
      hide Coherent, ByName, Lives, LayersKnown;
      LivesDrop(contents, volumes, volume);
      CoherentDrop(store.images, store.containers, contents, volumes, volume);
      store.containers := WithoutContainer(store.containers, volume);
      volumes := volumes - {volume};
    }

    /** A process writes or removes a file of a mounted volume. */
    method Write(volume: string, path: string, data: Option<string>)
      requires Valid()
      modifies this`volumes
      ensures Valid() && Shows() == Step(old(Shows()), Op.Write(volume, path, data))
    {
      hide Coherent, ByName, Overlay, Edit, LayersKnown;
      if volume in volumes {
        var m := volumes[volume];
        var changed := m.(changes := m.changes[path := data]);
        CoherentChange(store.images, store.containers, contents, volumes, volume, changed);
        OverlayEdit(FilesOf(contents, m.image), m.changes, path, data);
        LivesPut(contents, volumes, volume, changed);
        assert path in changed.changes;
        volumes := volumes[volume := changed];
      }
    }

    /**
      Commits a volume unless nothing changed since it was created from an image.
      The id of a new image is `id`; the store makes it from the image's digest.  `config` and `topLayer`
      are what the builder gives it.
     */
    method Commit(volume: string, cache: string, id: string, config: Config, topLayer: string, stored: bool)
      returns (imageId: string, newImage: bool, ok: bool)
      requires Valid() && volume in volumes && id != "" && id !in contents
      modifies this`contents, store
      ensures Valid() && store.containers == old(store.containers)
      ensures contents.Keys <= old(contents).Keys + {id}
      ensures Shows().volumes == old(Shows().volumes)
      ensures var image := Image(id, [cache], topLayer, false);
              if newImage then
                store.images == Untagged(old(store.images), cache) + [image]
                && store.catalog == WithImage(old(store.catalog), image, config,
                                              BaseLayer(old(store.images), volumes[volume].image))
              else store.images == old(store.images) && store.catalog == old(store.catalog)
      ensures imageId == if newImage then id else if ok then volumes[volume].image else ""
      ensures newImage ==> id in contents && contents[id] == Live(old(contents), volumes[volume]).files
      ensures var v := Live(old(contents), volumes[volume]);
              newImage == (!Unchanged(v) && stored) &&
              Shows().caches == (if newImage then old(Shows().caches)[cache := v.files] else old(Shows().caches)) &&
              (ok <==> stored || Unchanged(v))
    {
      hide Coherent, ByName, Lives, Overlay, LayersKnown, WithImage, BaseLayer;
      var m := volumes[volume];
      if m.changes == map[] && m.image != "" {
        return m.image, false, true;
      }
      if !stored {
        return "", false, false;
      }
      var files := Overlay(FilesOf(contents, m.image), m.changes);
      var image := Image(id, [cache], topLayer, false);
      CoherentIds(store.images, store.containers, contents, volumes);
      ByNameCommitted(store.images, cache, image, contents, files);
      CoherentCommit(store.images, store.containers, contents, volumes, cache, image, files);
      var below := BaseLayer(store.images, m.image);
      LayersKnownCommit(store.catalog, store.images, cache, image, config, below);
      store.catalog := WithImage(store.catalog, image, config, below);
      store.images := Untagged(store.images, cache) + [image];
      contents := contents[id := files];
      return id, true, true;
    }

    /** Unmounts and removes a directory of the host; one that is missing is fine. */
    method UnmountAndDelete(dir: string, stuck: set<string>) returns (ok: bool)
      modifies this`dirs
      ensures dirs == old(dirs) - ({dir} - stuck)
      ensures ok <==> dir !in stuck
    {
      ok := dir !in stuck;
      if ok {
        dirs := dirs - {dir};
      }
    }

    /**
      Unmounts a volume and commits it if asked to.  Looking the container up overwrites an error from the
      given directory.  The container is deleted even if the unmount or the commit failed; only a
      cancelled request leaves it, without an error.
     */
    method Unmount(op: Op<CacheName>, id: string, config: Config, topLayer: string)
      returns (imageId: string, newImage: bool, ok: bool)
      requires Valid() && op.Unmount? && id != "" && id !in contents
      modifies this, store
      ensures Valid() && contents.Keys <= old(contents).Keys + {id}
      ensures Shows() == Step(old(Shows()), Renamed(op))
      ensures newImage <==> Commits(old(Shows()), Renamed(op))
      ensures newImage ==> Holds(store.images, contents, imageId, LocalImageName(op.cache),
                                 old(Shows()).volumes[op.volume].files) && imageId !in old(contents)
      ensures !newImage ==>
                imageId == if op.volume in old(volumes) && op.commit && Clean(old(Shows()).volumes[op.volume], op)
                              && Unchanged(old(Shows()).volumes[op.volume])
                           then old(volumes)[op.volume].image else ""
      ensures ok <==> Succeeds(old(Shows()), Renamed(op))
    {
      hide Coherent, ByName, Lives, LayersKnown, Unchanged, LocalImageName, Holds;
      ShowsLive(op.volume);
      var volume := op.volume;
      if op.dir != "" {
        ok := UnmountAndDelete(op.dir, op.stuck);
      }
      if volume !in volumes {
        return "", false, false;
      }
      ok := UnmountVolume(op);
      assert ok == Clean(old(Shows()).volumes[volume], Renamed(op));
      imageId, newImage, ok := CommitAndDelete(op, ok, id, config, topLayer);
    }

    /** Unmounts the recorded directory, unless it was given as well, and the container. */
    method UnmountVolume(op: Op<CacheName>) returns (ok: bool)
      requires op.Unmount? && op.volume in volumes
      modifies this`dirs
      ensures var recorded := volumes[op.volume].dir;
              dirs == (if recorded == op.dir then old(dirs) else old(dirs) - (Dir(recorded) - op.stuck))
              && (ok <==> op.unmounts && (recorded == "" || recorded == op.dir || recorded !in op.stuck))
    {
      ok := true;
      var recorded := volumes[op.volume].dir;
      if recorded != "" && recorded != op.dir {
        ok := UnmountAndDelete(recorded, op.stuck);
      }
      if !op.unmounts {
        ok := false;
      }
    }

    /** The rest of an unmount; `clean`: there was no error so far. */
    method CommitAndDelete(op: Op<CacheName>, clean: bool, id: string, config: Config, topLayer: string)
      returns (imageId: string, newImage: bool, ok: bool)
      requires Valid() && op.Unmount? && op.volume in volumes && id != "" && id !in contents
      modifies this`contents, this`volumes, store
      ensures Valid() && contents.Keys <= old(contents).Keys + {id}
      ensures newImage ==> Holds(store.images, contents, id, LocalImageName(op.cache),
                                 Live(old(contents), old(volumes)[op.volume]).files)
      ensures imageId == if newImage then id
                         else if clean && op.commit && Unchanged(Live(old(contents), old(volumes)[op.volume]))
                         then old(volumes)[op.volume].image else ""
      ensures var v := Live(old(contents), old(volumes)[op.volume]);
              var before := old(Shows());
              newImage == (clean && op.commit && op.stored && !Unchanged(v)) &&
              (ok <==> clean && (op.cancelled || op.dropped) && (op.commit ==> op.stored || Unchanged(v))) &&
              Shows() == View(
                           if newImage then before.caches[LocalImageName(op.cache) := v.files] else before.caches,
                           if op.dropped && !op.cancelled then before.volumes - {op.volume} else before.volumes,
                           before.dirs)
    {
      hide Coherent, ByName, Lives, Overlay, LayersKnown, WithImage, BaseLayer, Untagged, LocalImageName;
      imageId, newImage, ok := "", false, clean;
      if clean && op.commit {
        imageId, newImage, ok := Commit(op.volume, LocalImageName(op.cache), id, config, topLayer, op.stored);
        if newImage {
          ghost var image := Image(id, [LocalImageName(op.cache)], topLayer, false);
          assert store.images[|store.images| - 1] == image;
        }
      }
      if !op.cancelled {
        if op.dropped {
          Drop(op.volume);
        } else {
          ok := false;
        }
      }
    }

    lemma ShowsLive(volume: string)
      ensures volume in Shows().volumes <==> volume in volumes
      ensures volume in volumes ==> Shows().volumes[volume] == Live(contents, volumes[volume])
    {
    }

    /** The garbage collector, with any failures, changes nothing that a mount or a live volume sees. */
    method Collect() returns (ok: bool)
      requires Valid()
      modifies this`contents, store
      ensures Valid() && contents.Keys <= old(contents).Keys
      ensures Shows() == old(Shows())
    {
      hide ByName, Lives;
      ghost var order; ghost var scans;
      ok, order, scans := store.Prune();
      CoherentCollect(old(store.images), store.containers, contents, volumes, order);
      contents := Surviving(contents, store.images);
    }

    /** One operation; `id`, `config` and `topLayer` are those of the image that it may commit. */
    method PerformOne(op: Op<CacheName>, id: string, config: Config, topLayer: string)
      requires Valid() && id != "" && id !in contents
      modifies this, store
      ensures Valid() && contents.Keys <= old(contents).Keys + {id}
      ensures Shows() == Step(old(Shows()), Renamed(op))
    {
      hide Coherent, ByName, Lives, Step, LayersKnown, LocalImageName;
      match op {
        case Mount(_, _, _, _, _, _, _) =>
          var _ := Mount(op);
        case Write(volume, path, data) =>
          Write(volume, path, data);
        case Unmount(_, _, _, _, _, _, _, _, _) =>
          var _, _, _ := Unmount(op, id, config, topLayer);
        case Collect =>
          var _ := Collect();
          CollectIsNothing(Shows());
      }
    }

    /**
      Every run of operations on the store refines the run of the specification, whatever
      configurations and layers the builder gives to new images: over image names in any case, and over
      caches as users name them if no namespace contains a slash.
     */
    method Perform(ops: seq<Op<CacheName>>, ids: nat -> string, configs: nat -> Config, topLayers: nat -> string,
                   ghost before: View<CacheName>)
      requires Valid()
      requires forall i :: ids(i) != "" && ids(i) !in contents
      requires forall i, j :: i != j ==> ids(i) != ids(j)
      modifies this, store
      ensures Valid() && Shows() == Run(old(Shows()), AllRenamed(ops))
      ensures Mirrors(before, old(Shows())) && (forall i | 0 <= i < |ops| :: SlashFree(ops[i])) ==>
                Mirrors(Run(before, ops), Shows())
    {
      hide Valid, Shows, Step, Run, Mirrors, SlashFree, Renamed;
      RunNothing(Shows());
      for n := 0 to |ops|
        invariant Valid() && Shows() == Run(old(Shows()), AllRenamed(ops[..n]))
        invariant forall i | i >= n :: ids(i) !in contents
      {
        assert AllRenamed(ops[..n + 1]) == AllRenamed(ops[..n]) + [Renamed(ops[n])];
        RunOneMore(old(Shows()), AllRenamed(ops[..n]), Renamed(ops[n]));
        PerformOne(ops[n], ids(n), configs(n), topLayers(n));
      }
      assert ops[..|ops|] == ops;
      if Mirrors(before, old(Shows())) && forall i | 0 <= i < |ops| :: SlashFree(ops[i]) {
        RunMirrors(before, old(Shows()), ops);
      }
    }
  }

  lemma RunNothing(s: View<string>)
    ensures Run(s, AllRenamed([])) == s
  {
  }

  lemma CollectIsNothing(s: View<string>)
    ensures Step(s, Op.Collect) == s
  {
  }

  lemma RunOneMore<K>(s: View<K>, ops: seq<Op<K>>, op: Op<K>)
    ensures Run(s, ops + [op]) == Step(Run(s, ops), op)
  {
    assert (ops + [op])[..|ops|] == ops;
  }

  // ---------------------------------------------------------------- caches and their images

  /** The operation with its cache replaced by the name of the image. */
  function Renamed(op: Op<CacheName>): Op<string> {
    match op
    case Mount(volume, cache, dir, mounted, saved, undone, removable) =>
      Mount(volume, LocalImageName(cache), dir, mounted, saved, undone, removable)
    case Write(volume, path, data) => Write(volume, path, data)
    case Unmount(volume, cache, dir, commit, stuck, unmounts, stored, cancelled, dropped) =>
      Unmount(volume, LocalImageName(cache), dir, commit, stuck, unmounts, stored, cancelled, dropped)
    case Collect => Collect
  }

  function AllRenamed(ops: seq<Op<CacheName>>): (r: seq<Op<string>>)
    ensures |r| == |ops| && forall i | 0 <= i < |ops| :: r[i] == Renamed(ops[i])
  {
    if ops == [] then [] else AllRenamed(ops[..|ops| - 1]) + [Renamed(ops[|ops| - 1])]
  }

  predicate SlashFree(op: Op<CacheName>) {
    op.Mount? || op.Unmount? ==> '/' !in op.cache.namespace
  }

  /** Both show the same; each cache whose namespace has no slash is shown by its image. */
  ghost predicate Mirrors(p: View<CacheName>, s: View<string>) {
    p.volumes == s.volumes && p.dirs == s.dirs &&
    forall c: CacheName | '/' !in c.namespace ::
      (c in p.caches <==> LocalImageName(c) in s.caches) &&
      (c in p.caches ==> p.caches[c] == s.caches[LocalImageName(c)])
  }

  lemma StepMirrors(p: View<CacheName>, s: View<string>, op: Op<CacheName>)
    requires Mirrors(p, s) && SlashFree(op)
    ensures Mirrors(Step(p, op), Step(s, Renamed(op)))
  {
    hide LocalImageName, Edit;
    if op.Mount? {
      assert NewVolume(p, op.cache, op.dir, op.saved) == NewVolume(s, LocalImageName(op.cache), op.dir, op.saved);
    } else if op.Unmount? {
      var p', s' := Step(p, op), Step(s, Renamed(op));
      forall c: CacheName | '/' !in c.namespace
        ensures c in p'.caches <==> LocalImageName(c) in s'.caches
        ensures c in p'.caches ==> p'.caches[c] == s'.caches[LocalImageName(c)]
      {
        if LocalImageName(c) == LocalImageName(op.cache) {
          LocalImageNamesDiffer(c, op.cache);
        }
      }
    }
  }

  lemma {:induction false} RunMirrors(p: View<CacheName>, s: View<string>, ops: seq<Op<CacheName>>)
    requires Mirrors(p, s) && forall i | 0 <= i < |ops| :: SlashFree(ops[i])
    ensures Mirrors(Run(p, ops), Run(s, AllRenamed(ops)))
  {
    if ops != [] {
      hide Mirrors, Step, LocalImageName;
      var shorter, last := ops[..|ops| - 1], ops[|ops| - 1];
      RunMirrors(p, s, shorter);
      StepMirrors(Run(p, shorter), Run(s, AllRenamed(shorter)), last);
      assert AllRenamed(ops) == AllRenamed(shorter) + [Renamed(last)];
      RunOneMore(s, AllRenamed(shorter), Renamed(last));
    }
  }

  // ---------------------------------------------------------------- what users are promised

  /** None of the operations commits to the cache. */
  ghost predicate NoCommitTo<K>(s: View<K>, ops: seq<Op<K>>, cache: K) {
    forall i | 0 <= i < |ops| :: !(Commits(Run(s, ops[..i]), ops[i]) && ops[i].cache == cache)
  }

  lemma {:induction false} CacheKept<K>(s: View<K>, ops: seq<Op<K>>, cache: K)
    requires NoCommitTo(s, ops, cache)
    ensures cache in Run(s, ops).caches <==> cache in s.caches
    ensures Contents(Run(s, ops), cache) == Contents(s, cache)
  {
    if ops != [] {
      var shorter := ops[..|ops| - 1];
      forall i | 0 <= i < |shorter| ensures !(Commits(Run(s, shorter[..i]), shorter[i]) && shorter[i].cache == cache) {
        assert shorter[..i] == ops[..i];
      }
      CacheKept(s, shorter, cache);
    }
  }

  /**
    A volume shows the contents of the latest commit to its cache: after a commit and any operations
    that do not commit to that cache, garbage collections included, a mount yields the committed files.
   */
  lemma MountSeesLatestCommit<K>(s: View<K>, commit: Op<K>, ops: seq<Op<K>>, next: Op<K>)
    requires Commits(s, commit) && NoCommitTo(Step(s, commit), ops, commit.cache)
    requires next.Mount? && next.cache == commit.cache && Succeeds(Run(Step(s, commit), ops), next)
    ensures var after := Step(Run(Step(s, commit), ops), next);
            next.volume in after.volumes
            && after.volumes[next.volume].files == s.volumes[commit.volume].files
  {
    CacheKept(Step(s, commit), ops, commit.cache);
  }

  /** A successful mount shows the cache's files, unchanged, and records the directory that it occupies. */
  lemma SuccessfulMountShows<K>(s: View<K>, op: Op<K>)
    requires op.Mount? && Succeeds(s, op)
    ensures var after := Step(s, op);
            op.volume !in s.volumes && op.volume in after.volumes && after.caches == s.caches
            && after.volumes[op.volume].files == (if op.cache in s.caches then s.caches[op.cache] else map[])
            && (after.volumes[op.volume].scratch <==> op.cache !in s.caches)
            && !after.volumes[op.volume].changed && after.volumes[op.volume].dir == op.dir
            && (op.dir != "" ==> op.dir !in s.dirs && op.dir in after.dirs)
  {
  }

  /** A write shows in the volume: the file has the new data, or is gone, and all others stay. */
  lemma WriteShows<K>(s: View<K>, volume: string, path: string, data: Option<string>, other: string)
    requires volume in s.volumes && other != path
    ensures var before, after := s.volumes[volume].files, Step(s, Write(volume, path, data)).volumes[volume].files;
            (path in after <==> data.Some?) && (path in after ==> after[path] == data.value)
            && (other in after <==> other in before) && (other in after ==> after[other] == before[other])
  {
  }

  /**
    After an unmount that was to commit and returned no error, the cache has the volume's files if the
    volume was written to or created from scratch, even without a file; otherwise no cache has changed.
   */
  lemma SuccessfulCommitStores<K>(s: View<K>, op: Op<K>)
    requires op.Unmount? && op.commit && Succeeds(s, op)
    ensures var v, after := s.volumes[op.volume], Step(s, op).caches;
            if v.changed || v.scratch then op.cache in after && after == s.caches[op.cache := v.files]
            else after == s.caches
  {
  }

  /**
    An unmount changes a cache only if it was asked to commit, nothing failed before, and the commit
    succeeded; and it deletes the volume, after failures as well, unless it is cancelled or cannot.
   */
  lemma UnmountEffects<K>(s: View<K>, op: Op<K>)
    requires op.Unmount?
    ensures Step(s, op).caches != s.caches ==> op.commit && op.unmounts && op.stored && op.volume in s.volumes
    ensures op.volume in Step(s, op).volumes <==> op.volume in s.volumes && (op.cancelled || !op.dropped)
    ensures op.volume !in s.volumes || !op.unmounts ==> !Succeeds(s, op)
    ensures forall v | v != op.volume :: v in Step(s, op).volumes <==> v in s.volumes
  {
  }

  /** The volume's own writes, and nothing else, applied to the files it started with. */
  function OwnWrites<K>(files: Files, ops: seq<Op<K>>, volume: string): Files {
    if ops == [] then files
    else
      var before, last := OwnWrites(files, ops[..|ops| - 1], volume), ops[|ops| - 1];
      if last.Write? && last.volume == volume then Edit(before, last.path, last.data) else before
  }

  /** A live volume sees its snapshot plus its own writes, whatever happens to other volumes and caches. */
  lemma {:induction false} VolumeIsIsolated<K>(s: View<K>, ops: seq<Op<K>>, volume: string)
    requires volume in s.volumes
    requires forall i | 0 <= i < |ops| :: !(ops[i].Unmount? && ops[i].volume == volume)
    ensures volume in Run(s, ops).volumes
    ensures Run(s, ops).volumes[volume].files == OwnWrites(s.volumes[volume].files, ops, volume)
  {
    if ops != [] {
      VolumeIsIsolated(s, ops[..|ops| - 1], volume);
    }
  }

  /** What was written to a volume and committed is what the next volume of that cache starts with. */
  lemma CommittedWritesAreRestored<K>(
    s: View<K>, first: Op<K>, ops: seq<Op<K>>, finish: Op<K>, later: seq<Op<K>>, next: Op<K>)
    requires first.Mount? && Succeeds(s, first) && first.cache !in s.caches
    requires forall i | 0 <= i < |ops| :: !(ops[i].Unmount? && ops[i].volume == first.volume)
    requires var live := Run(Step(s, first), ops);
             finish.Unmount? && finish.volume == first.volume && finish.cache == first.cache && finish.commit
             && Succeeds(live, finish)
             && NoCommitTo(Step(live, finish), later, first.cache)
             && next.Mount? && next.cache == first.cache && Succeeds(Run(Step(live, finish), later), next)
    ensures var gone := Step(Run(Step(s, first), ops), finish);
            var after := Step(Run(gone, later), next);
            next.volume in after.volumes
            && after.volumes[next.volume].files == OwnWrites(map[], ops, first.volume)
  {
    var mounted := Step(s, first);
    VolumeIsIsolated(mounted, ops, first.volume);
    ScratchStays(mounted, ops, first.volume);
    MountSeesLatestCommit(Run(mounted, ops), finish, later, next);
  }

  /** A directory that was given and cannot be removed changes neither the result nor the commit. */
  lemma StuckDirectoryIsIgnored<K>(s: View<K>, op: Op<K>)
    requires op.Unmount?
    ensures var smooth := op.(stuck := op.stuck - {op.dir});
            (Succeeds(s, op) <==> Succeeds(s, smooth)) && (Commits(s, op) <==> Commits(s, smooth)) &&
            Step(s, op).caches == Step(s, smooth).caches && Step(s, op).volumes == Step(s, smooth).volumes
  {
  }

  /** A volume's directory survives a successful unmount iff it was given and could not be removed. */
  lemma DirectoryLeftIff<K>(s: View<K>, op: Op<K>)
    requires op.Unmount? && Succeeds(s, op) && Occupied(s, s.volumes[op.volume].dir)
    ensures var dir := s.volumes[op.volume].dir;
            dir in Step(s, op).dirs <==> dir == op.dir && dir in op.stuck
  {
  }

  /** A directory that is left behind cannot be mounted to until an unmount removes it. */
  lemma {:induction false} DirectoryBlocks<K>(s: View<K>, ops: seq<Op<K>>, op: Op<K>)
    requires op.Mount? && Occupied(s, op.dir)
    requires forall i | 0 <= i < |ops| && ops[i].Unmount? :: op.dir in ops[i].stuck
    ensures Occupied(Run(s, ops), op.dir) && !Succeeds(Run(s, ops), op)
  {
    if ops != [] {
      DirectoryBlocks(s, ops[..|ops| - 1], op);
    }
  }

  /** A failed mount to a free directory leaves nothing behind iff both container and directory can be removed. */
  lemma FailedMountUndoneIff<K>(s: View<K>, op: Op<K>)
    requires op.Mount? && !Succeeds(s, op) && !Occupied(s, op.dir)
    ensures Step(s, op) == s <==> (op.dir == "" || op.removable) && (op.volume in s.volumes || op.undone)
  {
    var after := Step(s, op);
    assert op.volume !in s.volumes && !op.undone ==> op.volume in after.volumes;
    assert op.dir != "" && !op.removable ==> op.dir in after.dirs;
  }

  /** Both do happen: a failed mount that cannot be undone leaves a volume and a directory behind. */
  lemma FailedMountLeavesBoth(volume: string, cache: CacheName, dir: string)
    requires dir != ""
    ensures var s := View(map[], map[], {});
            var op := Mount(volume, cache, dir, false, true, false, false);
            !Succeeds(s, op) && Step(s, op).dirs == {dir}
            && Step(s, op).volumes == map[volume := LiveVolume(map[], true, false, dir)]
  {
  }

  /** And a successful unmount may leave the directory. */
  lemma UnmountLeavesDirectory(volume: string, cache: CacheName, dir: string)
    requires dir != ""
    ensures var v := LiveVolume(map[], true, false, dir);
            var s := View(map[], map[volume := v], {dir});
            var op := Unmount(volume, cache, dir, true, {dir}, true, true, false, true);
            Succeeds(s, op) && Step(s, op) == View(map[cache := map[]], map[], {dir})
  {
  }

  /** A volume that is left behind cannot be mounted until an unmount deletes it. */
  lemma {:induction false} VolumeBlocks<K>(s: View<K>, ops: seq<Op<K>>, op: Op<K>)
    requires op.Mount? && op.volume in s.volumes
    requires forall i | 0 <= i < |ops| && ops[i].Unmount? && ops[i].volume == op.volume ::
               ops[i].cancelled || !ops[i].dropped
    ensures op.volume in Run(s, ops).volumes && !Succeeds(Run(s, ops), op)
  {
    if ops != [] {
      VolumeBlocks(s, ops[..|ops| - 1], op);
    }
  }

  lemma {:induction false} ScratchStays<K>(s: View<K>, ops: seq<Op<K>>, volume: string)
    requires volume in s.volumes
    requires forall i | 0 <= i < |ops| :: !(ops[i].Unmount? && ops[i].volume == volume)
    ensures volume in Run(s, ops).volumes && Run(s, ops).volumes[volume].scratch == s.volumes[volume].scratch
  {
    if ops != [] {
      ScratchStays(s, ops[..|ops| - 1], volume);
    }
  }

  /** Two caches have one image name only if a namespace contains a slash. */
  lemma LocalImageNamesDiffer(a: CacheName, b: CacheName)
    requires '/' !in a.namespace && '/' !in b.namespace && LocalImageName(a) == LocalImageName(b)
    ensures a == b
  {
    var prefix, suffix := "localhost/cache/", ":latest";
    var x, y := LocalImageName(a), LocalImageName(b);
    assert x[|prefix|..|x| - |suffix|] == a.namespace + "/" + a.name;
    assert y[|prefix|..|y| - |suffix|] == b.namespace + "/" + b.name;
    SplitsAtSlash(a.namespace, a.name, b.namespace, b.name);
  }

  lemma SplitsAtSlash(n1: string, c1: string, n2: string, c2: string)
    requires '/' !in n1 && '/' !in n2 && n1 + "/" + c1 == n2 + "/" + c2
    ensures n1 == n2 && c1 == c2
  {
    var whole := n1 + "/" + c1;
    assert whole[|n1|] == '/' && whole[|n2|] == '/';
    assert whole[..|n1|] == n1 && whole[..|n2|] == n2;
    assert whole[|n1| + 1..] == c1 && whole[|n2| + 1..] == c2;
  }

  lemma ImageNameExample()
    ensures LocalImageName(CacheName("default", "maven")) == "localhost/cache/default/maven:latest"
  {
  }

  /** A namespace that does contain a slash shares its image names with another namespace. */
  lemma LocalImageNamesCollide(a: string, b: string, c: string)
    ensures LocalImageName(CacheName(a + "/" + b, c)) == LocalImageName(CacheName(a, b + "/" + c))
  {
  }

  lemma NoEmptyId(
    images: seq<Image>, containers: seq<Container>, contents: map<string, Files>, volumes: map<string, Mounted>)
    requires Coherent(images, containers, contents, volumes)
    ensures FilesOf(contents, "") == map[]
  {
  }

  lemma CoherentIds(
    images: seq<Image>, containers: seq<Container>, contents: map<string, Files>, volumes: map<string, Mounted>)
    requires Coherent(images, containers, contents, volumes)
    ensures UniqueIds(images) && forall x | x in images :: x.id in contents
  {
  }
}
