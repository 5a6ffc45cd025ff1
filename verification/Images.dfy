/**
  The images of the local store and the parent relation that the garbage
  collector derives from their configurations and layers
  (internal/layerfs/prune.go).
 */
module Images {
  import opened Wrappers

  /** One `history` entry of an OCI image configuration; `created` is an instant. */
  datatype History = History(
    created: Option<int>, createdBy: string, author: string, comment: string, emptyLayer: bool)

  datatype Config = Config(history: seq<History>, diffIds: seq<string>)

  datatype Image = Image(id: string, names: seq<string>, topLayer: string, readOnly: bool)

  datatype Container = Container(id: string, imageId: string)

  /**
    What the store knows beside its image list: the parent of every layer, the
    configuration of every image, and the images that cannot be opened although
    they are stored.  `getImageConfig` answers "no configuration" for the latter.
   */
  datatype Catalog = Catalog(
    layers: map<string, string>, configs: map<string, Config>, unopenable: set<string>)

  function SeenConfig(cat: Catalog, id: string): Option<Config> {
    if id in cat.configs && id !in cat.unopenable then Some(cat.configs[id]) else None
  }

  predicate LayerKnown(cat: Catalog, image: Image) {
    image.topLayer == "" || image.topLayer in cat.layers
  }

  predicate LayersKnown(cat: Catalog, images: seq<Image>) {
    forall x | x in images :: LayerKnown(cat, x)
  }

  /** The child has no layers, shares the parent's top layer, or sits directly on it. */
  predicate LayerLink(cat: Catalog, child: Image, parent: Image) {
    child.topLayer == "" ||
    (child.topLayer in cat.layers &&
     (parent.topLayer == cat.layers[child.topLayer] || parent.topLayer == child.topLayer))
  }

  predicate ExtendsHistory(child: Config, parent: Config) {
    |parent.history| + 1 == |child.history| && parent.history <= child.history
  }

  /** `child` is counted by `getChildren(parent)`. */
  predicate ChildOf(cat: Catalog, child: Image, parent: Image) {
    child.id != parent.id
    && LayerLink(cat, child, parent)
    && SeenConfig(cat, child.id).Some? && SeenConfig(cat, parent.id).Some?
    && ExtendsHistory(SeenConfig(cat, child.id).value, SeenConfig(cat, parent.id).value)
  }

  /** `parent` is a match for `getParent(child)`: a child link whose diff ids extend the parent's. */
  predicate ParentOf(cat: Catalog, parent: Image, child: Image) {
    ChildOf(cat, child, parent)
    && SeenConfig(cat, parent.id).value.diffIds <= SeenConfig(cat, child.id).value.diffIds
  }

  /** The number of history entries; every child link increases it by one. */
  function Depth(cat: Catalog, image: Image): (d: nat) {
    match SeenConfig(cat, image.id)
    case Some(c) => |c.history|
    case None => 0
  }

  function FirstParent(cat: Catalog, images: seq<Image>, child: Image): Option<Image> {
    if images == [] then None
    else if ParentOf(cat, images[0], child) then Some(images[0])
    else FirstParent(cat, images[1..], child)
  }

  function ChildIds(cat: Catalog, images: seq<Image>, parent: Image): seq<string> {
    if images == [] then []
    else (if ChildOf(cat, images[0], parent) then [images[0].id] else [])
         + ChildIds(cat, images[1..], parent)
  }

  predicate HasChild(cat: Catalog, images: seq<Image>, parent: Image) {
    exists c | c in images :: ChildOf(cat, c, parent)
  }

  predicate IsStored(images: seq<Image>, id: string) {
    exists x | x in images :: x.id == id
  }

  predicate UniqueIds(images: seq<Image>) {
    forall i, j | 0 <= i < j < |images| :: images[i].id != images[j].id
  }

  predicate Used(containers: seq<Container>, id: string) {
    exists ctr | ctr in containers :: ctr.imageId == id
  }

  predicate Deletable(containers: seq<Container>, image: Image) {
    image.names == [] && !image.readOnly && !Used(containers, image.id)
  }

  /** The images that remain once the given ones are deleted. */
  function Keep(images: seq<Image>, gone: seq<Image>): (kept: seq<Image>)
    ensures forall x :: x in kept <==> x in images && x !in gone
  {
    if images == [] then []
    else (if images[0] in gone then [] else [images[0]]) + Keep(images[1..], gone)
  }

  // ---------------------------------------------------------------- facts about the relation

  lemma {:induction false} KeepUnique(images: seq<Image>, gone: seq<Image>)
    requires UniqueIds(images)
    ensures UniqueIds(Keep(images, gone))
  {
    if images != [] {
      KeepUnique(images[1..], gone);
      forall x | x in Keep(images[1..], gone) ensures x.id != images[0].id {
        assert x in images[1..];
      }
    }
  }

  lemma {:induction false} KeepKeep(images: seq<Image>, a: seq<Image>, b: seq<Image>)
    ensures Keep(Keep(images, a), b) == Keep(images, a + b)
  {
    if images != [] {
      KeepKeep(images[1..], a, b);
      if images[0] !in a {
        assert Keep(images, a) == [images[0]] + Keep(images[1..], a);
        assert Keep(images, a)[1..] == Keep(images[1..], a);
      } else {
        assert Keep(images, a) == Keep(images[1..], a);
      }
    }
  }

  lemma {:induction false} KeepNothingGone(images: seq<Image>)
    ensures Keep(images, []) == images
  {
    if images != [] {
      KeepNothingGone(images[1..]);
    }
  }

  lemma SameIdSameImage(images: seq<Image>, x: Image, y: Image)
    requires UniqueIds(images) && x in images && y in images && x.id == y.id
    ensures x == y
  {
  }

  lemma {:induction false} FirstParentSpec(cat: Catalog, images: seq<Image>, child: Image)
    ensures FirstParent(cat, images, child).Some? ==>
              FirstParent(cat, images, child).value in images &&
              ParentOf(cat, FirstParent(cat, images, child).value, child)
    ensures FirstParent(cat, images, child).None? ==>
              forall p | p in images :: !ParentOf(cat, p, child)
  {
    if images != [] {
      FirstParentSpec(cat, images[1..], child);
    }
  }

  /** Of several matching images, the one that is listed first is taken for the parent. */
  lemma {:induction false} FirstMatchIsParent(cat: Catalog, images: seq<Image>, child: Image, i: nat)
    requires i < |images| && ParentOf(cat, images[i], child)
    requires forall j | 0 <= j < i :: !ParentOf(cat, images[j], child)
    ensures FirstParent(cat, images, child) == Some(images[i])
  {
    if i > 0 {
      FirstMatchIsParent(cat, images[1..], child, i - 1);
    }
  }

  /** An image whose configuration is not seen has no parent and no children. */
  lemma UnseenIsAlone(cat: Catalog, images: seq<Image>, image: Image)
    requires SeenConfig(cat, image.id).None?
    ensures FirstParent(cat, images, image) == None && ChildIds(cat, images, image) == []
  {
  }

  lemma {:induction false} ChildIdsSpec(cat: Catalog, images: seq<Image>, parent: Image)
    ensures forall id :: id in ChildIds(cat, images, parent) <==>
              exists c | c in images :: c.id == id && ChildOf(cat, c, parent)
    ensures ChildIds(cat, images, parent) != [] <==> HasChild(cat, images, parent)
  {
    if images != [] {
      ChildIdsSpec(cat, images[1..], parent);
      forall id ensures id in ChildIds(cat, images, parent) <==>
                  exists c | c in images :: c.id == id && ChildOf(cat, c, parent)
      {
        if id in ChildIds(cat, images[1..], parent) {
          var c :| c in images[1..] && c.id == id && ChildOf(cat, c, parent);
          assert c in images;
        }
      }
      assert HasChild(cat, images, parent) <==>
             ChildOf(cat, images[0], parent) || HasChild(cat, images[1..], parent);
    }
  }

  lemma {:induction false} ChildIdsConcat(cat: Catalog, a: seq<Image>, b: seq<Image>, parent: Image)
    ensures ChildIds(cat, a + b, parent) == ChildIds(cat, a, parent) + ChildIds(cat, b, parent)
  {
    hide ChildOf;
    if a == [] {
      assert a + b == b;
    } else {
      ChildIdsConcat(cat, a[1..], b, parent);
      assert (a + b)[1..] == a[1..] + b;
    }
  }

  /** What the scan has found after `i` images, and after one more. */
  lemma ChildIdsUpTo(cat: Catalog, images: seq<Image>, parent: Image, i: nat)
    requires i < |images|
    ensures ChildIds(cat, images[..i + 1], parent) <= ChildIds(cat, images, parent)
    ensures ChildIds(cat, images[..i + 1], parent) ==
              ChildIds(cat, images[..i], parent)
              + (if ChildOf(cat, images[i], parent) then [images[i].id] else [])
  {
    assert images[..i + 1] == images[..i] + [images[i]];
    ChildIdsConcat(cat, images[..i], [images[i]], parent);
    assert images == images[..i + 1] + images[i + 1..];
    ChildIdsConcat(cat, images[..i + 1], images[i + 1..], parent);
  }

  /** A parent link makes the image a child, so an image with a stored child is never taken for a leaf. */
  lemma ParentIsCounted(cat: Catalog, images: seq<Image>, child: Image)
    requires child in images
    ensures FirstParent(cat, images, child).Some? ==>
              child.id in ChildIds(cat, images, FirstParent(cat, images, child).value) &&
              HasChild(cat, images, FirstParent(cat, images, child).value)
  {
    FirstParentSpec(cat, images, child);
    if FirstParent(cat, images, child).Some? {
      ChildIdsSpec(cat, images, FirstParent(cat, images, child).value);
    }
  }

  // ---------------------------------------------------------------- descendants

  /** A chain of child links that starts at `x`; every link leads to a stored image. */
  ghost predicate IsChain(cat: Catalog, images: seq<Image>, x: Image, chain: seq<Image>) {
    |chain| > 0 && chain[0] == x
    && forall i | 1 <= i < |chain| :: chain[i] in images && ChildOf(cat, chain[i], chain[i - 1])
  }

  /** Untagged, unused and writable, and so are all its transitive children. */
  ghost predicate Prunable(cat: Catalog, containers: seq<Container>, images: seq<Image>, x: Image) {
    forall chain: seq<Image> | IsChain(cat, images, x, chain) :: Deletable(containers, chain[|chain| - 1])
  }

  /** Every chain climbs one history entry per link, so no image is its own descendant. */
  lemma {:induction false} ChainDepth(cat: Catalog, images: seq<Image>, x: Image, chain: seq<Image>)
    requires IsChain(cat, images, x, chain)
    ensures Depth(cat, chain[|chain| - 1]) == Depth(cat, x) + |chain| - 1
    ensures |chain| > 1 ==> chain[|chain| - 1] != x
  {
    if |chain| > 1 {
      ChainDepth(cat, images, x, chain[..|chain| - 1]);
    }
  }

  lemma PrunableStep(cat: Catalog, containers: seq<Container>, images: seq<Image>, x: Image)
    ensures Prunable(cat, containers, images, x) <==>
              Deletable(containers, x) &&
              forall c | c in images && ChildOf(cat, c, x) :: Prunable(cat, containers, images, c)
  {
    if Prunable(cat, containers, images, x) {
      assert IsChain(cat, images, x, [x]);
      forall c | c in images && ChildOf(cat, c, x) ensures Prunable(cat, containers, images, c) {
        forall chain: seq<Image> | IsChain(cat, images, c, chain)
          ensures Deletable(containers, chain[|chain| - 1])
        {
          assert IsChain(cat, images, x, [x] + chain);
          assert ([x] + chain)[|chain|] == chain[|chain| - 1];
        }
      }
    }
    if Deletable(containers, x) &&
       forall c | c in images && ChildOf(cat, c, x) :: Prunable(cat, containers, images, c)
    {
      forall chain: seq<Image> | IsChain(cat, images, x, chain)
        ensures Deletable(containers, chain[|chain| - 1])
      {
        if |chain| > 1 {
          assert ChildOf(cat, chain[1], chain[0]);
          assert IsChain(cat, images, chain[1], chain[1..]);
        }
      }
    }
  }

  ghost function MaxDepth(cat: Catalog, images: seq<Image>): (m: nat)
    ensures forall x | x in images :: Depth(cat, x) <= m
  {
    if images == [] then 0
    else
      var m := MaxDepth(cat, images[1..]);
      assert forall x | x in images :: x == images[0] || x in images[1..];
      if Depth(cat, images[0]) > m then Depth(cat, images[0]) else m
  }

  /** Which images are prunable depends on the stored images, not on the order they are listed in. */
  lemma PrunableIgnoresOrder(
    cat: Catalog, containers: seq<Container>, a: seq<Image>, b: seq<Image>, x: Image)
    requires multiset(a) == multiset(b)
    ensures Prunable(cat, containers, a, x) <==> Prunable(cat, containers, b, x)
  {
    assert forall y :: y in a <==> y in multiset(a);
    assert forall y :: y in b <==> y in multiset(b);
    forall chain ensures IsChain(cat, a, x, chain) <==> IsChain(cat, b, x, chain) {
    }
  }

  // ---------------------------------------------------------------- deletion orders

  /** But for its children, `p` may go: it is stored, writable, unused, and untagged or tagged once and asked for. */
  ghost predicate Permitted(
    containers: seq<Container>, images: seq<Image>, asked: seq<string>, gone: seq<Image>, p: Image)
  {
    p in images && p !in gone
    && (p.names == [] || (|p.names| == 1 && p.id in asked))
    && !p.readOnly && !Used(containers, p.id)
  }

  /** `p` may go once `gone` is gone: it is permitted, and all its children went before. */
  ghost predicate SafeDeletion(
    cat: Catalog, containers: seq<Container>, images: seq<Image>, asked: seq<string>,
    gone: seq<Image>, p: Image)
  {
    Permitted(containers, images, asked, gone, p)
    && forall c | c in images && ChildOf(cat, c, p) :: c in gone
  }

  /** A sequence of deletions each of which is safe after the ones before it. */
  ghost predicate SafeOrder(
    cat: Catalog, containers: seq<Container>, images: seq<Image>, asked: seq<string>, order: seq<Image>)
  {
    forall k | 0 <= k < |order| :: SafeDeletion(cat, containers, images, asked, order[..k], order[k])
  }

  /** What holds of deletions in any case: only stored, writable, unused images go, untagged or asked for. */
  ghost predicate Harmless(
    containers: seq<Container>, images: seq<Image>, asked: seq<string>, order: seq<Image>)
  {
    forall x | x in order ::
      x in images && (x.names == [] || (|x.names| == 1 && x.id in asked))
      && !x.readOnly && !Used(containers, x.id)
  }

  /**
    Which images cannot be opened at the n-th call into the store, beside those that never can.  A read
    of such an image at that call is blind.
   */
  type Outages = (nat, string) -> bool

  /** The store calls, from the first up to the last, of a search for the children of an image. */
  datatype Scan = Scan(first: nat, end: nat)

  /** At some call of the search the image could not be opened. */
  ghost predicate Missed(blind: Outages, scan: Scan, id: string) {
    exists n | scan.first <= n < scan.end :: blind(n, id)
  }

  /** The searches follow one another. */
  ghost predicate ScansWithin(scans: seq<Scan>, first: nat, end: nat) {
    (forall s | s in scans :: first <= s.first <= s.end <= end)
    && forall j, k | 0 <= j < k < |scans| :: scans[j].end <= scans[k].first
  }

  /** The search for children of `p` missed `p` itself or every child that is left once `gone` is gone. */
  ghost predicate Overlooked(
    cat: Catalog, images: seq<Image>, gone: seq<Image>, p: Image, blind: Outages, scan: Scan)
  {
    Missed(blind, scan, p.id) || forall c | c in images && c !in gone && ChildOf(cat, c, p) :: Missed(blind, scan, c.id)
  }

  /**
    What holds of deletions whatever cannot be opened when: each is permitted, and it is safe after the
    ones before it unless its own search for children missed the image or all children that are left.
   */
  ghost predicate SafeUnlessMissed(
    cat: Catalog, containers: seq<Container>, images: seq<Image>, asked: seq<string>,
    order: seq<Image>, blind: Outages, scans: seq<Scan>)
  {
    |scans| == |order| &&
    forall k | 0 <= k < |order| ::
      Permitted(containers, images, asked, order[..k], order[k]) &&
      (SafeDeletion(cat, containers, images, asked, order[..k], order[k])
       || Overlooked(cat, images, order[..k], order[k], blind, scans[k]))
  }

  lemma DeletionAfter(
    cat: Catalog, containers: seq<Container>, images: seq<Image>, asked: seq<string>, more: seq<string>,
    a: seq<Image>, b: seq<Image>, p: Image, blind: Outages, scan: Scan)
    requires forall id | id in more :: id in asked
    ensures Permitted(containers, Keep(images, a), more, b, p) ==> Permitted(containers, images, asked, a + b, p)
    ensures SafeDeletion(cat, containers, Keep(images, a), more, b, p) ==>
              SafeDeletion(cat, containers, images, asked, a + b, p)
    ensures Overlooked(cat, Keep(images, a), b, p, blind, scan) ==> Overlooked(cat, images, a + b, p, blind, scan)
  {
    hide ChildOf, Used, Missed;
  }

  lemma SafeUnlessMissedAppend(
    cat: Catalog, containers: seq<Container>, images: seq<Image>, asked: seq<string>, more: seq<string>,
    a: seq<Image>, b: seq<Image>, blind: Outages, scansA: seq<Scan>, scansB: seq<Scan>)
    requires SafeUnlessMissed(cat, containers, images, asked, a, blind, scansA)
    requires SafeUnlessMissed(cat, containers, Keep(images, a), more, b, blind, scansB)
    requires forall id | id in more :: id in asked
    ensures SafeUnlessMissed(cat, containers, images, asked, a + b, blind, scansA + scansB)
  {
    hide Permitted, SafeDeletion, Overlooked;
    var order, scans := a + b, scansA + scansB;
    forall k | 0 <= k < |order|
      ensures Permitted(containers, images, asked, order[..k], order[k])
      ensures SafeDeletion(cat, containers, images, asked, order[..k], order[k])
              || Overlooked(cat, images, order[..k], order[k], blind, scans[k])
    {
      if k < |a| {
        assert order[..k] == a[..k] && scans[k] == scansA[k];
      } else {
        var l := k - |a|;
        assert scans[k] == scansB[l] && order[k] == b[l] && order[..k] == a + b[..l];
        DeletionAfter(cat, containers, images, asked, more, a, b[..l], b[l], blind, scansB[l]);
      }
    }
  }

  lemma SafeUnlessMissedExtend(
    cat: Catalog, containers: seq<Container>, images: seq<Image>, asked: seq<string>,
    order: seq<Image>, p: Image, blind: Outages, scans: seq<Scan>, scan: Scan)
    requires SafeUnlessMissed(cat, containers, images, asked, order, blind, scans)
    requires p in Keep(images, order)
    requires HasChild(cat, Keep(images, order), p) ==> Overlooked(cat, Keep(images, order), [], p, blind, scan)
    requires p.names == [] || (|p.names| == 1 && p.id in asked)
    requires !p.readOnly && !Used(containers, p.id)
    ensures SafeUnlessMissed(cat, containers, images, asked, order + [p], blind, scans + [scan])
  {
    hide ChildOf, Used, Missed;
    assert [p][..0] == [];
    SafeUnlessMissedAppend(cat, containers, images, asked, asked, order, [p], blind, scans, [scan]);
  }

  lemma PermittedIsHarmless(
    cat: Catalog, containers: seq<Container>, images: seq<Image>, asked: seq<string>, order: seq<Image>,
    blind: Outages, scans: seq<Scan>)
    requires SafeUnlessMissed(cat, containers, images, asked, order, blind, scans)
    ensures Harmless(containers, images, asked, order)
  {
    hide SafeDeletion, Overlooked, Used;
    forall x | x in order
      ensures x in images && (x.names == [] || (|x.names| == 1 && x.id in asked))
              && !x.readOnly && !Used(containers, x.id)
    {
      var k :| 0 <= k < |order| && order[k] == x;
      assert Permitted(containers, images, asked, order[..k], order[k]);
    }
  }

  /** No image was unopenable during the calls. */
  ghost predicate Clear(blind: Outages, first: nat, end: nat) {
    forall n, id | first <= n < end :: !blind(n, id)
  }

  lemma NoneMissed(
    cat: Catalog, containers: seq<Container>, images: seq<Image>, asked: seq<string>,
    gone: seq<Image>, p: Image, blind: Outages, scan: Scan)
    requires Clear(blind, scan.first, scan.end) && Permitted(containers, images, asked, gone, p)
    ensures Overlooked(cat, images, gone, p, blind, scan) ==> SafeDeletion(cat, containers, images, asked, gone, p)
  {
    hide ChildOf, Used;
    assert forall id :: !Missed(blind, scan, id);
  }

  /** If every image could be opened throughout, the whole order is safe. */
  lemma ClearIsSafe(
    cat: Catalog, containers: seq<Container>, images: seq<Image>, asked: seq<string>,
    order: seq<Image>, blind: Outages, scans: seq<Scan>, first: nat, end: nat)
    requires SafeUnlessMissed(cat, containers, images, asked, order, blind, scans)
    requires ScansWithin(scans, first, end) && Clear(blind, first, end)
    ensures SafeOrder(cat, containers, images, asked, order)
  {
    hide SafeDeletion, Overlooked, Permitted;
    forall k | 0 <= k < |order| ensures SafeDeletion(cat, containers, images, asked, order[..k], order[k]) {
      assert scans[k] in scans;
      NoneMissed(cat, containers, images, asked, order[..k], order[k], blind, scans[k]);
    }
  }

  // ---------------------------------------------------------------- how much outages can cost

  /** Some stored image cannot be opened at the n-th call. */
  ghost predicate Outage(blind: Outages, images: seq<Image>, n: nat) {
    exists x | x in images :: blind(n, x.id)
  }

  /** The number of calls at which some stored image cannot be opened. */
  ghost function BlindCalls(blind: Outages, images: seq<Image>, first: nat, end: nat): nat {
    if first >= end then 0
    else BlindCalls(blind, images, first, end - 1) + if Outage(blind, images, end - 1) then 1 else 0
  }

  /** The number of deletions that come before one of their children. */
  ghost function UnsafeDeletions(
    cat: Catalog, containers: seq<Container>, images: seq<Image>, asked: seq<string>, order: seq<Image>): nat
  {
    if order == [] then 0
    else
      var before, last := order[..|order| - 1], order[|order| - 1];
      UnsafeDeletions(cat, containers, images, asked, before)
      + if SafeDeletion(cat, containers, images, asked, before, last) then 0 else 1
  }

  lemma {:induction false} BlindCallsSplit(
    blind: Outages, images: seq<Image>, first: nat, middle: nat, end: nat, outage: bool)
    requires first <= middle <= end
    requires outage ==> exists n | middle <= n < end :: Outage(blind, images, n)
    ensures BlindCalls(blind, images, first, end) >=
              BlindCalls(blind, images, first, middle) + if outage then 1 else 0
    decreases end
  {
    hide Outage;
    if middle < end {
      BlindCallsSplit(blind, images, first, middle, end - 1, outage && !Outage(blind, images, end - 1));
    }
  }

  /** A deletion that is not safe was searched for during an outage. */
  lemma UnsafeMeansOutage(
    cat: Catalog, containers: seq<Container>, images: seq<Image>, asked: seq<string>,
    gone: seq<Image>, p: Image, blind: Outages, scan: Scan)
    requires Permitted(containers, images, asked, gone, p) && Overlooked(cat, images, gone, p, blind, scan)
    ensures SafeDeletion(cat, containers, images, asked, gone, p)
            || exists n | scan.first <= n < scan.end :: Outage(blind, images, n)
  {
    hide ChildOf, Used;
    if !SafeDeletion(cat, containers, images, asked, gone, p) {
      var c :| c in images && ChildOf(cat, c, p) && c !in gone;
      var x := if Missed(blind, scan, p.id) then p else c;
      var n :| scan.first <= n < scan.end && blind(n, x.id);
      assert Outage(blind, images, n);
    }
  }

  /** In any run, at most one deletion per outage comes too early. */
  lemma {:induction false} OutagesBoundUnsafe(
    cat: Catalog, containers: seq<Container>, images: seq<Image>, asked: seq<string>,
    order: seq<Image>, blind: Outages, scans: seq<Scan>, first: nat, end: nat)
    requires SafeUnlessMissed(cat, containers, images, asked, order, blind, scans)
    requires first <= end && ScansWithin(scans, first, end)
    ensures UnsafeDeletions(cat, containers, images, asked, order) <= BlindCalls(blind, images, first, end)
    decreases |order|
  {
    if order != [] {
      hide SafeDeletion, Overlooked, Permitted, Outage, BlindCalls;
      var k := |order| - 1;
      var before, scan := scans[..k], scans[k];
      assert scan in scans;
      SafePrefix(cat, containers, images, asked, order, blind, scans, k);
      OutagesBoundUnsafe(cat, containers, images, asked, order[..k], blind, before, first, scan.first);
      var unsafe := !SafeDeletion(cat, containers, images, asked, order[..k], order[k]);
      if unsafe {
        UnsafeMeansOutage(cat, containers, images, asked, order[..k], order[k], blind, scan);
      }
      BlindCallsSplit(blind, images, first, scan.first, end, unsafe);
    }
  }

  lemma SafePrefix(
    cat: Catalog, containers: seq<Container>, images: seq<Image>, asked: seq<string>,
    order: seq<Image>, blind: Outages, scans: seq<Scan>, k: nat)
    requires SafeUnlessMissed(cat, containers, images, asked, order, blind, scans) && k <= |order|
    ensures SafeUnlessMissed(cat, containers, images, asked, order[..k], blind, scans[..k])
  {
    hide SafeDeletion, Overlooked, Permitted;
    forall j | 0 <= j < k ensures order[..k][..j] == order[..j] {
    }
  }

  /**
    In any run and after every prefix of the deletions, a survivor has lost an image it is a child of
    only if that image could not be opened at some call of the search for its children, or none of its
    children that were left could.
   */
  lemma OnlyOutagesLoseParents(
    cat: Catalog, containers: seq<Container>, images: seq<Image>, asked: seq<string>,
    order: seq<Image>, blind: Outages, scans: seq<Scan>, k: nat, child: Image, parent: Image)
    requires SafeUnlessMissed(cat, containers, images, asked, order, blind, scans) && k <= |order|
    requires child in images && parent in images && ChildOf(cat, child, parent)
    ensures var kept := Keep(images, order[..k]);
            child in kept && parent !in kept ==>
              exists j | 0 <= j < k ::
                order[j] == parent &&
                (Missed(blind, scans[j], parent.id)
                 || forall c | c in images && c !in order[..j] && ChildOf(cat, c, parent) ::
                      Missed(blind, scans[j], c.id))
  {
    hide Missed, ChildOf, Used;
    if child in Keep(images, order[..k]) && parent in order[..k] {
      var j :| 0 <= j < k && order[j] == parent;
      assert child !in order[..j];
    }
  }

  /** No surviving image ever loses an image it is a child of: not at the end, not after any prefix. */
  lemma SafeOrderKeepsParents(
    cat: Catalog, containers: seq<Container>, images: seq<Image>, asked: seq<string>,
    order: seq<Image>, k: nat, child: Image, parent: Image)
    requires SafeOrder(cat, containers, images, asked, order) && k <= |order|
    requires child in images && parent in images && ChildOf(cat, child, parent)
    ensures child in Keep(images, order[..k]) ==> parent in Keep(images, order[..k])
  {
  }

  /** Safe deletions of untagged images stay within the prunable ones. */
  lemma SafeOrderIsPrunable(
    cat: Catalog, containers: seq<Container>, images: seq<Image>, order: seq<Image>, x: Image)
    requires SafeOrder(cat, containers, images, [], order)
    requires x in order
    ensures x in images && Prunable(cat, containers, images, x)
    decreases MaxDepth(cat, images) - Depth(cat, x)
  {
    var k :| 0 <= k < |order| && order[k] == x;
    assert SafeDeletion(cat, containers, images, [], order[..k], order[k]);
    forall c | c in images && ChildOf(cat, c, x) ensures Prunable(cat, containers, images, c) {
      assert c in order[..k];
      SafeOrderIsPrunable(cat, containers, images, order, c);
    }
    PrunableStep(cat, containers, images, x);
  }

  /** Asking for untagged images only is the same as asking for none by id. */
  lemma SafeOrderUntagged(
    cat: Catalog, containers: seq<Container>, images: seq<Image>, asked: seq<string>, order: seq<Image>)
    requires SafeOrder(cat, containers, images, asked, order) && UniqueIds(images)
    requires AllUntagged(images, asked)
    ensures SafeOrder(cat, containers, images, [], order)
  {
  }

  lemma SafeUnlessMissedUntagged(
    cat: Catalog, containers: seq<Container>, images: seq<Image>, asked: seq<string>, order: seq<Image>,
    blind: Outages, scans: seq<Scan>)
    requires SafeUnlessMissed(cat, containers, images, asked, order, blind, scans) && UniqueIds(images)
    requires AllUntagged(images, asked)
    ensures SafeUnlessMissed(cat, containers, images, [], order, blind, scans)
  {
    hide Overlooked, ChildOf, Used;
  }

  // ---------------------------------------------------------------- completeness

  /** Every child link agrees with the diff ids, and no image has two parents. */
  ghost predicate Tidy(cat: Catalog, images: seq<Image>) {
    LayersKnown(cat, images)
    && (forall c, p | c in images && p in images && ChildOf(cat, c, p) :: ParentOf(cat, p, c))
    && (forall c, p, q | c in images && p in images && q in images
                         && ChildOf(cat, c, p) && ChildOf(cat, c, q) :: p == q)
  }

  lemma TidyLayers(cat: Catalog, images: seq<Image>)
    requires Tidy(cat, images)
    ensures LayersKnown(cat, images)
  {
  }

  lemma TidyKeep(cat: Catalog, images: seq<Image>, gone: seq<Image>)
    requires Tidy(cat, images)
    ensures Tidy(cat, Keep(images, gone))
  {
  }

  /** `x` is gone, must stay, or is kept by a surviving child. */
  ghost predicate Blocked(
    cat: Catalog, containers: seq<Container>, images: seq<Image>, gone: seq<Image>, x: Image)
  {
    x in gone || !Deletable(containers, x)
    || exists c | c in images :: ChildOf(cat, c, x) && c !in gone
  }

  /** While a removal climbs, only the image it is about to look at may be unblocked. */
  ghost predicate Climbing(
    cat: Catalog, containers: seq<Container>, images: seq<Image>, gone: seq<Image>, at: Option<Image>)
  {
    forall x | x in images && HasChild(cat, images, x) ::
      at == Some(x) || Blocked(cat, containers, images, gone, x)
  }

  /** Deleting an image can unblock only its parent, and that is where the removal climbs to. */
  lemma ClimbDelete(
    cat: Catalog, containers: seq<Container>, images: seq<Image>, gone: seq<Image>, p: Image)
    requires Tidy(cat, images)
    requires Climbing(cat, containers, images, gone, Some(p))
    requires p in Keep(images, gone)
    ensures Climbing(cat, containers, images, gone + [p], FirstParent(cat, Keep(images, gone), p))
  {
    var kept := Keep(images, gone);
    var next := FirstParent(cat, kept, p);
    FirstParentSpec(cat, kept, p);
    forall x | x in images && HasChild(cat, images, x)
      ensures next == Some(x) || Blocked(cat, containers, images, gone + [p], x)
    {
      if x != p && x !in gone && Deletable(containers, x) {
        var c :| c in images && ChildOf(cat, c, x) && c !in gone;
        if c == p {
          assert x in kept && ParentOf(cat, x, p);
        } else {
          assert c !in gone + [p];
        }
      }
    }
  }

  lemma NextParent(cat: Catalog, images: seq<Image>, gone: seq<Image>, p: Image, next: Image)
    requires p in Keep(images, gone) && next in Keep(images, gone) && ParentOf(cat, next, p)
    ensures next in Keep(images, gone + [p])
    ensures HasChild(cat, images, next) && Depth(cat, next) < Depth(cat, p)
  {
  }

  /** An image that must stay is blocked, so the removal may climb past it. */
  lemma ClimbPast(
    cat: Catalog, containers: seq<Container>, images: seq<Image>, gone: seq<Image>,
    p: Image, next: Option<Image>)
    requires Climbing(cat, containers, images, gone, Some(p))
    requires !Deletable(containers, p) || HasChild(cat, Keep(images, gone), p)
    ensures Climbing(cat, containers, images, gone, next)
  {
  }

  /** Every childless descendant of `x` is among the listed ids. */
  ghost predicate LeavesListed(cat: Catalog, images: seq<Image>, x: Image, ids: seq<string>) {
    forall chain: seq<Image> | IsChain(cat, images, x, chain) && !HasChild(cat, images, chain[|chain| - 1]) ::
      chain[|chain| - 1].id in ids
  }

  /** What holds of the deletions made once the ids in `done` have been worked on. */
  ghost predicate Swept(
    cat: Catalog, containers: seq<Container>, images: seq<Image>, gone: seq<Image>, done: seq<string>)
  {
    Climbing(cat, containers, images, gone, None)
    && (forall z | z in gone && !HasChild(cat, images, z) :: z.id in done)
    && (forall z | z in images && z.id in done && Deletable(containers, z)
                   && !HasChild(cat, images, z) :: z in gone)
  }

  lemma SweptNothing(cat: Catalog, containers: seq<Container>, images: seq<Image>, asked: seq<string>)
    ensures forall blind :: SafeUnlessMissed(cat, containers, images, asked, [], blind, [])
    ensures Swept(cat, containers, images, [], []) && Climbing(cat, containers, images, [], None)
    ensures forall p :: Climbing(cat, containers, images, [], p)
    ensures Keep(images, []) == images
  {
  }

  /** What it means for a round that its image is missing, must stay, or has a child. */
  lemma NothingToTake(cat: Catalog, containers: seq<Container>, images: seq<Image>, id: string)
    requires forall x | x in images && x.id == id :: !Deletable(containers, x) || HasChild(cat, images, x)
    ensures Swept(cat, containers, images, [], [id])
  {
    SweptNothing(cat, containers, images, []);
  }

  lemma NotRemovable(containers: seq<Container>, images: seq<Image>, id: string)
    requires forall x | x in images :: x.id != id
    ensures !Removable(containers, images, id)
  {
  }

  lemma RemovableIff(containers: seq<Container>, images: seq<Image>, image: Image)
    requires UniqueIds(images) && image in images
    ensures Removable(containers, images, image.id) <==>
              |image.names| <= 1 && !image.readOnly && !Used(containers, image.id)
    ensures forall x | x in images && x.id == image.id :: x == image
  {
    forall x | x in images && x.id == image.id ensures x == image {
      SameIdSameImage(images, x, image);
    }
  }

  lemma SweptOne(
    cat: Catalog, containers: seq<Container>, images: seq<Image>, gone: seq<Image>, image: Image)
    requires UniqueIds(images) && image in images
    requires Climbing(cat, containers, images, gone, None)
    requires forall z | z in gone :: z == image || HasChild(cat, images, z)
    requires image in gone || !Deletable(containers, image)
    ensures Swept(cat, containers, images, gone, [image.id])
  {
  }

  lemma SweptStep(
    cat: Catalog, containers: seq<Container>, images: seq<Image>,
    gone: seq<Image>, done: seq<string>, more: seq<Image>, id: string)
    requires Swept(cat, containers, images, gone, done)
    requires Swept(cat, containers, Keep(images, gone), more, [id])
    ensures Swept(cat, containers, images, gone + more, done + [id])
  {
  }

  lemma LeavesListedStep(cat: Catalog, images: seq<Image>, x: Image, c: Image, ids: seq<string>)
    requires c in images && ChildOf(cat, c, x) && LeavesListed(cat, images, x, ids)
    ensures LeavesListed(cat, images, c, ids)
  {
    forall chain: seq<Image> | IsChain(cat, images, c, chain) && !HasChild(cat, images, chain[|chain| - 1])
      ensures chain[|chain| - 1].id in ids
    {
      assert IsChain(cat, images, x, [x] + chain);
      assert ([x] + chain)[|chain|] == chain[|chain| - 1];
    }
  }

  lemma {:induction false} GoneTakesDescendants(
    cat: Catalog, containers: seq<Container>, images: seq<Image>, order: seq<Image>,
    x: Image, chain: seq<Image>)
    requires SafeOrder(cat, containers, images, [], order) && x in order
    requires IsChain(cat, images, x, chain)
    ensures chain[|chain| - 1] in order
  {
    if |chain| > 1 {
      var last := |chain| - 1;
      GoneTakesDescendants(cat, containers, images, order, x, chain[..last]);
      var k :| 0 <= k < |order| && order[k] == chain[last - 1];
      assert SafeDeletion(cat, containers, images, [], order[..k], order[k]);
      assert chain[last] in order[..k];
    }
  }

  /** While ids are worked on, an image is gone iff it is prunable and all its leaves had their turn. */
  lemma GoneIff(
    cat: Catalog, containers: seq<Container>, images: seq<Image>,
    order: seq<Image>, done: seq<string>, x: Image)
    requires SafeOrder(cat, containers, images, [], order)
    requires Swept(cat, containers, images, order, done)
    requires x in images
    ensures x in order <==> Prunable(cat, containers, images, x) && LeavesListed(cat, images, x, done)
    decreases MaxDepth(cat, images) - Depth(cat, x)
  {
    if x in order {
      SafeOrderIsPrunable(cat, containers, images, order, x);
      forall chain: seq<Image> | IsChain(cat, images, x, chain) && !HasChild(cat, images, chain[|chain| - 1])
        ensures chain[|chain| - 1].id in done
      {
        GoneTakesDescendants(cat, containers, images, order, x, chain);
      }
    } else if Prunable(cat, containers, images, x) && LeavesListed(cat, images, x, done) {
      PrunableStep(cat, containers, images, x);
      assert IsChain(cat, images, x, [x]);
      var c :| c in images && ChildOf(cat, c, x) && c !in order;
      LeavesListedStep(cat, images, x, c, done);
      GoneIff(cat, containers, images, order, done, c);
    }
  }

  /** Once every untagged id had its turn, exactly the prunable images are gone. */
  lemma SweptIsExact(
    cat: Catalog, containers: seq<Container>, images: seq<Image>, order: seq<Image>, done: seq<string>)
    requires SafeOrder(cat, containers, images, [], order)
    requires Swept(cat, containers, images, order, done)
    requires forall x | x in images && x.names == [] :: x.id in done
    ensures forall x | x in images :: x in order <==> Prunable(cat, containers, images, x)
  {
    forall x | x in images ensures x in order <==> Prunable(cat, containers, images, x) {
      GoneIff(cat, containers, images, order, done, x);
      if Prunable(cat, containers, images, x) {
        forall chain: seq<Image> | IsChain(cat, images, x, chain) ensures chain[|chain| - 1].id in done {
          assert Deletable(containers, chain[|chain| - 1]);
          assert chain[|chain| - 1] in images;
        }
      }
    }
  }

  function DanglingIds(images: seq<Image>): seq<string> {
    if images == [] then []
    else (if images[0].names == [] then [images[0].id] else []) + DanglingIds(images[1..])
  }

  lemma {:induction false} DanglingIdsSpec(images: seq<Image>)
    ensures forall x | x in images && x.names == [] :: x.id in DanglingIds(images)
    ensures AllUntagged(images, DanglingIds(images))
  {
    if images != [] {
      DanglingIdsSpec(images[1..]);
      forall id | id in DanglingIds(images)
        ensures exists x | x in images :: x.id == id && x.names == []
      {
        if id in DanglingIds(images[1..]) {
          var x :| x in images[1..] && x.id == id && x.names == [];
          assert x in images;
        } else {
          assert images[0].id == id;
        }
      }
    }
  }

  /**
    Working on the i-th id ends in an error: the image must not be deleted,
    or a removal that started at its last leaf has already taken it.
   */
  ghost predicate Complains(
    cat: Catalog, containers: seq<Container>, images: seq<Image>, ids: seq<string>, i: nat)
    requires i < |ids|
  {
    exists x | x in images :: x.id == ids[i] &&
      (x.readOnly || Used(containers, x.id)
       || (Prunable(cat, containers, images, x) && LeavesListed(cat, images, x, ids[..i])))
  }

  /** A stored image of this id may go as far as tags, mode and containers are concerned. */
  predicate Removable(containers: seq<Container>, images: seq<Image>, id: string) {
    exists x | x in images :: x.id == id && |x.names| <= 1 && !x.readOnly && !Used(containers, id)
  }

  ghost predicate AllUntagged(images: seq<Image>, ids: seq<string>) {
    forall id | id in ids :: exists x | x in images :: x.id == id && x.names == []
  }

  /** An id fails at its turn iff no deletable image of that id is left. */
  lemma TurnComplains(
    cat: Catalog, containers: seq<Container>, images: seq<Image>,
    order: seq<Image>, ids: seq<string>, i: nat)
    requires UniqueIds(images) && i < |ids|
    requires AllUntagged(images, ids)
    requires SafeOrder(cat, containers, images, ids, order)
    requires Swept(cat, containers, images, order, ids[..i])
    ensures Complains(cat, containers, images, ids, i) <==> !Removable(containers, Keep(images, order), ids[i])
  {
    SafeOrderUntagged(cat, containers, images, ids, order);
    assert ids[i] in ids;
    var x :| x in images && x.id == ids[i] && x.names == [];
    forall y | y in images && y.id == x.id ensures y == x {
      SameIdSameImage(images, y, x);
    }
    GoneIff(cat, containers, images, order, ids[..i], x);
  }

  // ---------------------------------------------------------------- consequences

  lemma StuckChainSurvives(
    cat: Catalog, containers: seq<Container>, images: seq<Image>, order: seq<Image>,
    x: Image, chain: seq<Image>, i: nat)
    requires SafeOrder(cat, containers, images, [], order)
    requires IsChain(cat, images, x, chain) && !Deletable(containers, chain[|chain| - 1]) && i < |chain|
    ensures chain[i] !in order
  {
    hide SafeOrder, Prunable, Deletable;
    var last := chain[|chain| - 1];
    if chain[i] in order {
      assert IsChain(cat, images, chain[i], chain[i..]);
      GoneTakesDescendants(cat, containers, images, order, chain[i], chain[i..]);
      SafeOrderIsPrunable(cat, containers, images, order, last);
      PrunableStep(cat, containers, images, last);
    }
  }

  /** Pruning the survivors finds nothing more to delete. */
  lemma NothingLeftToPrune(
    cat: Catalog, containers: seq<Container>, images: seq<Image>, order: seq<Image>, x: Image)
    requires SafeOrder(cat, containers, images, [], order)
    requires forall y | y in images :: y in order <==> Prunable(cat, containers, images, y)
    requires x in Keep(images, order)
    ensures !Prunable(cat, containers, Keep(images, order), x)
  {
    hide SafeOrder, Deletable, ChildOf;
    var kept := Keep(images, order);
    var chain :| IsChain(cat, images, x, chain) && !Deletable(containers, chain[|chain| - 1]);
    forall i | 1 <= i < |chain| ensures chain[i] in kept {
      StuckChainSurvives(cat, containers, images, order, x, chain, i);
    }
    assert IsChain(cat, kept, x, chain);
  }

  /** The catalog of a store all of whose images can be opened. */
  function Opened(cat: Catalog): Catalog {
    cat.(unopenable := {})
  }

  /**
    Judged by the stored configurations, a survivor of a safe order has lost its parent only if
    one of the two cannot be opened ...
   */
  lemma OnlyUnopenableLoseParents(
    cat: Catalog, containers: seq<Container>, images: seq<Image>, asked: seq<string>,
    order: seq<Image>, k: nat, c: Image, p: Image)
    requires SafeOrder(cat, containers, images, asked, order) && k <= |order|
    requires c in images && p in images && ChildOf(Opened(cat), c, p)
    ensures var kept := Keep(images, order[..k]);
            c in kept && p !in kept ==> c.id in cat.unopenable || p.id in cat.unopenable
  {
    if ChildOf(cat, c, p) {
      SafeOrderKeepsParents(cat, containers, images, asked, order, k, c, p);
    }
  }

  /**
    ... and once exactly the prunable images are gone, a survivor has lost its parent iff one of the
    two cannot be opened, the parent is prunable and the child is not.
   */
  lemma LosesParentIff(
    cat: Catalog, containers: seq<Container>, images: seq<Image>, order: seq<Image>, c: Image, p: Image)
    requires forall x | x in images :: x in order <==> Prunable(cat, containers, images, x)
    requires c in images && p in images && ChildOf(Opened(cat), c, p)
    ensures c in Keep(images, order) && p !in Keep(images, order) <==>
              (c.id in cat.unopenable || p.id in cat.unopenable)
              && Prunable(cat, containers, images, p) && !Prunable(cat, containers, images, c)
  {
    PrunableStep(cat, containers, images, p);
  }
}
