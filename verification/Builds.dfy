/**
  Which images the collector takes for built on which: every way to build an image is recognised, and
  unrelated images are told apart (internal/layerfs/prune.go).
 */
module Builds {
  import opened Wrappers
  import opened Images
  import opened Prune

  /**
    How an image is built on another: metadata is added, which keeps the top layer, or a new layer on top
    of the base's, or the image has no layers of its own.
   */
  datatype BuildStep =
    | Metadata(entry: History)
    | AddLayer(layer: string, diffId: string, entry: History)
    | Layerless(entry: History)

  function BuiltConfig(base: Config, step: BuildStep): Config {
    Config(base.history + [step.entry],
           if step.AddLayer? then base.diffIds + [step.diffId] else base.diffIds)
  }

  function BuiltImage(base: Image, id: string, names: seq<string>, step: BuildStep): Image {
    match step
    case Metadata(_) => Image(id, names, base.topLayer, false)
    case AddLayer(layer, _, _) => Image(id, names, layer, false)
    case Layerless(_) => Image(id, names, "", false)
  }

  function BuiltCatalog(cat: Catalog, base: Image, config: Config, id: string, step: BuildStep): Catalog {
    Catalog(if step.AddLayer? then cat.layers[step.layer := base.topLayer] else cat.layers,
            cat.configs[id := BuiltConfig(config, step)],
            cat.unopenable)
  }

  /** The base can be opened and its layer is known; the id is new, and so is the layer. */
  predicate CanBuild(cat: Catalog, images: seq<Image>, base: Image, id: string, step: BuildStep) {
    base in images && base.id in cat.configs && base.id !in cat.unopenable
    && (base.topLayer == "" || base.topLayer in cat.layers)
    && id !in cat.unopenable && (forall x | x in images :: x.id != id)
    && (step.AddLayer? ==> step.layer != "" && step.layer !in cat.layers)
  }

  lemma BuiltMatches(cat: Catalog, images: seq<Image>, base: Image, id: string, names: seq<string>, step: BuildStep)
    requires CanBuild(cat, images, base, id, step)
    ensures var cat' := BuiltCatalog(cat, base, cat.configs[base.id], id, step);
            ParentOf(cat', base, BuiltImage(base, id, names, step))
  {
    var config := cat.configs[base.id];
    assert config.history <= config.history + [step.entry];
    assert step.AddLayer? ==> config.diffIds <= config.diffIds + [step.diffId];
  }

  /**
    For every base and every step: the search for children of the base lists the new image, the search
    for its parent accepts the base, and while the new image bears a name the base is not prunable.
   */
  lemma BuildIsChild(
    cat: Catalog, containers: seq<Container>, images: seq<Image>, base: Image, id: string, names: seq<string>,
    step: BuildStep)
    requires CanBuild(cat, images, base, id, step)
    ensures var cat' := BuiltCatalog(cat, base, cat.configs[base.id], id, step);
            var images' := images + [BuiltImage(base, id, names, step)];
            id in ChildIds(cat', images', base)
            && FirstParent(cat', images', BuiltImage(base, id, names, step)).Some?
            && ParentOf(cat', base, BuiltImage(base, id, names, step))
            && (names != [] ==> !Prunable(cat', containers, images', base))
  {
    BuiltMatches(cat, images, base, id, names, step);
    var cat', built := BuiltCatalog(cat, base, cat.configs[base.id], id, step), BuiltImage(base, id, names, step);
    var images' := images + [built];
    assert ChildOf(cat', built, base);
    hide ChildOf, Prunable;
    assert images'[|images|] == built;
    ChildIdsSpec(cat', images', base);
    FirstParentSpec(cat', images', built);
    PrunableStep(cat', containers, images', built);
    PrunableStep(cat', containers, images', base);
  }

  /** An earlier history entry differs or is missing, or the top layers have nothing to do with each other. */
  predicate Unrelated(cat: Catalog, c: Image, p: Image) {
    (c.id in cat.configs && p.id in cat.configs &&
     var child, parent := cat.configs[c.id].history, cat.configs[p.id].history;
     exists i | 0 <= i < |parent| :: i >= |child| || child[i] != parent[i])
    || (c.topLayer != "" && c.topLayer != p.topLayer
        && (c.topLayer in cat.layers ==> cat.layers[c.topLayer] != p.topLayer))
  }

  /** An unrelated image is no child, has no such parent, and keeps nobody from deleting the image. */
  lemma UnrelatedIsNoChild(cat: Catalog, containers: seq<Container>, images: seq<Image>, c: Image, p: Image)
    requires UniqueIds(images) && c in images && p in images && Unrelated(cat, c, p)
    ensures c.id !in ChildIds(cat, images, p) && !ParentOf(cat, p, c)
    ensures Prunable(cat, containers, images, p) <==>
              Deletable(containers, p) &&
              forall d | d in images && d != c && d.id in ChildIds(cat, images, p) ::
                Prunable(cat, containers, images, d)
  {
    assert !ChildOf(cat, c, p);
    hide ChildOf, Prunable;
    ChildIdsSpec(cat, images, p);
    forall x | x in images && x.id == c.id ensures x == c {
      SameIdSameImage(images, x, c);
    }
    forall d | d in images ensures d.id in ChildIds(cat, images, p) <==> ChildOf(cat, d, p) {
      forall x | x in images && x.id == d.id ensures x == d {
        SameIdSameImage(images, x, d);
      }
    }
    PrunableStep(cat, containers, images, p);
  }

  /** Layers that were not built on those of the base keep it from being the parent. */
  lemma OtherLayersOtherParent(cat: Catalog, c: Image, p: Image, i: nat)
    requires c.id in cat.configs && p.id in cat.configs && i < |cat.configs[p.id].diffIds|
    requires var child, parent := cat.configs[c.id].diffIds, cat.configs[p.id].diffIds;
             i >= |child| || child[i] != parent[i]
    ensures !ParentOf(cat, p, c)
  {
  }

  /**
    An image is built on a stored one and tagged, and the collector runs, with any failing calls.  If
    every image could be opened, the search for children lists the new image and both stay.
   */
  method BuildThenPrune(store: ImageStore, base: Image, id: string, tag: string, step: BuildStep)
    returns (children: Result<seq<string>>)
    requires store.Valid() && CanBuild(store.catalog, store.images, base, id, step)
    modifies store
    ensures store.Valid()
    ensures store.Sighted(old(store.calls)) ==>
              (children.Ok? ==> id in children.value)
              && base in store.images && BuiltImage(base, id, [tag], step) in store.images
  {
    hide ChildOf, Keep, SafeOrder, SafeUnlessMissed, ScansWithin, Prunable, Tidy, Complains, BlindCalls,
         UnsafeDeletions, ChildIds, FirstParent, Deletable, LayersKnown, UniqueIds;
    var built := BuiltImage(base, id, [tag], step);
    BuildIsChild(store.catalog, store.containers, store.images, base, id, [tag], step);
    StaysUnique(store.images, built);
    store.catalog := BuiltCatalog(store.catalog, base, store.catalog.configs[base.id], id, step);
    store.images := store.images + [built];
    children := store.GetChildren(base, 0);
    ghost var images, cat, containers := store.images, store.catalog, store.containers;
    ghost var begun := store.calls;
    var ok; ghost var order; ghost var scans;
    ok, order, scans := store.Prune();
    assert built in images && base in images;
    TaggedStays(containers, images, order, built);
    if store.Sighted(old(store.calls)) {
      assert store.Sighted(begun);
      if base in order {
        SafeOrderIsPrunable(cat, containers, images, order, base);
      }
    }
  }

  lemma StaysUnique(images: seq<Image>, built: Image)
    requires UniqueIds(images) && forall x | x in images :: x.id != built.id
    ensures UniqueIds(images + [built])
  {
  }

  lemma TaggedStays(containers: seq<Container>, images: seq<Image>, order: seq<Image>, x: Image)
    requires Harmless(containers, images, [], order) && x in images && x.names != []
    ensures x in Keep(images, order)
  {
  }
}
