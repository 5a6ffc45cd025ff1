/** Runs of the garbage collector that show what its code does not do (internal/layerfs/prune.go). */
module PruneExamples {
  import opened Wrappers
  import opened Images
  import opened Prune

  const BASE := Image("base", [], "", false)
  const TAGGED := Image("tagged", ["tag"], "", false)
  const ALL_OPENABLE := Catalog(
    map[],
    map["base" := Config([], []), "tagged" := Config([History(None, "", "", "", false)], [])],
    {})
  const ONE_UNOPENABLE := ALL_OPENABLE.(unopenable := {"tagged"})

  lemma NoLinks(x: Image, y: Image)
    requires x in [BASE, TAGGED] && y in [BASE, TAGGED]
    ensures !ChildOf(ONE_UNOPENABLE, x, y)
  {
  }

  lemma UnopenableIsNoChild()
    ensures Tidy(ONE_UNOPENABLE, [BASE, TAGGED]) && UniqueIds([BASE, TAGGED])
    ensures ChildOf(Opened(ONE_UNOPENABLE), TAGGED, BASE)
    ensures Prunable(ONE_UNOPENABLE, [], [BASE, TAGGED], BASE)
    ensures !Prunable(ONE_UNOPENABLE, [], [BASE, TAGGED], TAGGED)
  {
    BaseIsListed();
    hide ChildOf, Prunable;
    forall x, y | x in [BASE, TAGGED] && y in [BASE, TAGGED] ensures !ChildOf(ONE_UNOPENABLE, x, y) {
      NoLinks(x, y);
    }
    PrunableStep(ONE_UNOPENABLE, [], [BASE, TAGGED], BASE);
    PrunableStep(ONE_UNOPENABLE, [], [BASE, TAGGED], TAGGED);
    assert LayersKnown(ONE_UNOPENABLE, [BASE, TAGGED]);
    assert Opened(ONE_UNOPENABLE) == ALL_OPENABLE;
  }

  lemma OnlyTaggedStays(order: seq<Image>)
    requires BASE in order && TAGGED !in order
    ensures Keep([BASE, TAGGED], order) == [TAGGED]
  {
    assert [BASE, TAGGED][1..] == [TAGGED];
    assert Keep([TAGGED], order) == [TAGGED] + Keep([], order);
  }

  /**
    It does happen: of an untagged image and a tagged one that was built on it and cannot be opened,
    `Prune` deletes the untagged one, without any failure.
   */
  method PruneOrphansUnopenable() returns (store: ImageStore)
    ensures fresh(store) && store.catalog == ONE_UNOPENABLE && store.Quiet(0)
    ensures ChildOf(Opened(store.catalog), TAGGED, BASE) && store.images == [TAGGED]
  {
    hide Keep, Prunable, Tidy, SafeOrder, SafeUnlessMissed, ScansWithin, Harmless, Complains, ChildOf;
    UnopenableIsNoChild();
    store := new ImageStore(ONE_UNOPENABLE, [BASE, TAGGED], [], n => false, (n, id) => false);
    var ok; ghost var order; ghost var scans;
    ok, order, scans := store.Prune();
    OnlyTaggedStays(order);
  }

  lemma BaseIsListed()
    ensures UniqueIds([BASE, TAGGED]) && DanglingIds([BASE, TAGGED]) == ["base"]
    ensures LayersKnown(ALL_OPENABLE, [BASE, TAGGED]) && Deletable([], BASE)
    ensures ChildOf(ALL_OPENABLE, TAGGED, BASE)
  {
    assert [BASE, TAGGED][1..] == [TAGGED] && [TAGGED][1..] == [];
    assert DanglingIds([TAGGED]) == [];
  }

  /** Only the untagged image may go, and only once. */
  lemma OnlyBaseGoes(order: seq<Image>, blind: Outages, scans: seq<Scan>)
    requires SafeUnlessMissed(ALL_OPENABLE, [], [BASE, TAGGED], [], order, blind, scans) && BASE in order
    ensures order == [BASE] && UnsafeDeletions(ALL_OPENABLE, [], [BASE, TAGGED], [], order) == 1
  {
    BaseIsListed();
    hide ChildOf, Overlooked;
    assert forall k | 0 <= k < |order| :: Permitted([], [BASE, TAGGED], [], order[..k], order[k]);
    assert forall k | 0 <= k < |order| :: order[k] == BASE;
    assert |order| > 1 ==> order[..1][0] == order[1];
    assert order == [BASE] && order[..0] == [];
    assert TAGGED in [BASE, TAGGED] && TAGGED !in order[..0];
    assert UnsafeDeletions(ALL_OPENABLE, [], [BASE, TAGGED], [], []) == 0;
  }

  /**
    So does a single outage: all images can be opened but for the moment at which the search for the
    children of the untagged image reads its configuration, and no call fails.  One deletion is too
    early, which is as many as one call with an outage can cost.
   */
  method PruneOrphansOnBlindRead() returns (store: ImageStore, ghost order: seq<Image>)
    ensures fresh(store) && store.catalog == ALL_OPENABLE && store.Unfailing(0)
    ensures forall n, id :: store.blind(n, id) <==> n == 4 && id == "base"
    ensures ChildOf(store.catalog, TAGGED, BASE) && store.images == [TAGGED]
    ensures UnsafeDeletions(store.catalog, store.containers, [BASE, TAGGED], [], order) == 1
  {
    hide Keep, Prunable, Tidy, SafeOrder, SafeUnlessMissed, ScansWithin, Harmless, Complains, ChildOf, DanglingIds,
         LayersKnown, Deletable, UniqueIds, UnsafeDeletions, BlindCalls;
    BaseIsListed();
    store := new ImageStore(ALL_OPENABLE, [BASE, TAGGED], [], n => false, (n, id) => n == 4 && id == "base");
    var ok; ghost var scans;
    ok, order, scans := store.Prune();
    assert BASE in [BASE, TAGGED];
    OnlyBaseGoes(order, store.blind, scans);
    OnlyTaggedStays(order);
  }

  const LEAF := Image("leaf", [], "", false)
  const CHAIN := Catalog(
    map[],
    map["base" := Config([], []), "leaf" := Config([History(None, "", "", "", false)], [])],
    {})

  lemma OnlyLink(x: Image, y: Image)
    requires x in [BASE, LEAF] && y in [BASE, LEAF]
    ensures ChildOf(CHAIN, x, y) <==> x == LEAF && y == BASE
    ensures ChildOf(CHAIN, x, y) ==> ParentOf(CHAIN, y, x)
  {
  }

  /** Both images are prunable, and the leaf is the only one without a child. */
  lemma BothPrunable(images: seq<Image>)
    requires images == [BASE, LEAF] || images == [LEAF, BASE]
    ensures Tidy(CHAIN, images) && UniqueIds(images) && DanglingIds(images) == [images[0].id, images[1].id]
    ensures HasChild(CHAIN, images, BASE) && !HasChild(CHAIN, images, LEAF)
    ensures Prunable(CHAIN, [], images, BASE) && Prunable(CHAIN, [], images, LEAF)
  {
    hide ChildOf, Prunable, ParentOf;
    forall x, y | x in images && y in images
      ensures ChildOf(CHAIN, x, y) <==> x == LEAF && y == BASE
      ensures ChildOf(CHAIN, x, y) ==> ParentOf(CHAIN, y, x)
    {
      OnlyLink(x, y);
    }
    PrunableStep(CHAIN, [], images, LEAF);
    PrunableStep(CHAIN, [], images, BASE);
    assert images[1..] == [images[1]] && images[1..][1..] == [];
    assert DanglingIds(images[1..]) == [images[1].id];
    assert LEAF in images;
  }

  lemma LeafEndsChain(images: seq<Image>, x: Image) returns (chain: seq<Image>)
    requires (images == [BASE, LEAF] || images == [LEAF, BASE]) && x in images
    ensures IsChain(CHAIN, images, x, chain) && chain[|chain| - 1] == LEAF
  {
    OnlyLink(LEAF, BASE);
    hide ChildOf;
    chain := if x == LEAF then [LEAF] else [BASE, LEAF];
  }

  /** Every chain of children ends at one of the two images, and the leaf is the one without children. */
  lemma LeavesOf(images: seq<Image>, x: Image, ids: seq<string>)
    requires (images == [BASE, LEAF] || images == [LEAF, BASE]) && x in images
    ensures LeavesListed(CHAIN, images, x, ids) <==> "leaf" in ids
  {
    BothPrunable(images);
    hide ChildOf, HasChild, Prunable, Tidy, UniqueIds, DanglingIds;
    var chain := LeafEndsChain(images, x);
    if "leaf" in ids {
      forall other: seq<Image> | IsChain(CHAIN, images, x, other) && !HasChild(CHAIN, images, other[|other| - 1])
        ensures other[|other| - 1].id in ids
      {
        assert other[|other| - 1] in images;
      }
    } else {
      assert chain[|chain| - 1].id !in ids;
    }
  }

  lemma WhoComplains(images: seq<Image>, i: nat)
    requires (images == [BASE, LEAF] || images == [LEAF, BASE]) && i < 2
    ensures var ids := [images[0].id, images[1].id];
            Complains(CHAIN, [], images, ids, i) <==> images[0] == LEAF && i == 1
  {
    BothPrunable(images);
    var ids := [images[0].id, images[1].id];
    LeavesOf(images, images[i], ids[..i]);
    hide Prunable, LeavesListed, Tidy, HasChild;
    assert images[i] in images;
  }

  lemma {:induction false} NothingStays(images: seq<Image>, order: seq<Image>)
    requires forall x | x in images :: x in order
    ensures Keep(images, order) == []
  {
    if images != [] {
      NothingStays(images[1..], order);
    }
  }

  /**
    Whether `Prune` reports an error depends on the order of the list: of an untagged image and its
    untagged child, both go without a failure, but if the child is listed first, the turn of its
    parent finds it gone.
   */
  method PruneErrorDependsOnOrder(childFirst: bool) returns (store: ImageStore, ok: bool)
    ensures fresh(store) && store.catalog == CHAIN && store.Quiet(0) && store.images == []
    ensures ok <==> !childFirst
  {
    hide Keep, Prunable, Tidy, SafeOrder, SafeUnlessMissed, ScansWithin, Harmless, Complains, ChildOf, DanglingIds,
         LayersKnown, Deletable, UniqueIds, HasChild;
    var images := if childFirst then [LEAF, BASE] else [BASE, LEAF];
    BothPrunable(images);
    WhoComplains(images, 0);
    WhoComplains(images, 1);
    store := new ImageStore(CHAIN, images, [], n => false, (n, id) => false);
    ghost var order; ghost var scans;
    ok, order, scans := store.Prune();
    NothingStays(images, order);
  }
}
