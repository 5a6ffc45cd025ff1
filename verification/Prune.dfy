/**
  The garbage collector of the local image store (internal/layerfs/prune.go).

  Every call into the store may fail, and at every call any images may be impossible to
  open, which counts as having no configuration: `fails` and `blind` decide, call by
  call and image by image, and are arbitrary.  `Sighted` says that every image could be
  opened throughout a run, `Quiet` that no call failed either.  Ghost results give the
  images in the order in which they were deleted, and for each the calls of the search
  that found no child of it.
 */
module Prune {
  import opened Wrappers
  import opened Images

  /** Compares two histories entry by entry. */
  method HistoriesDiffer(a: seq<History>, b: seq<History>) returns (differ: bool)
    ensures differ <==> a != b
  {
    if |a| != |b| {
      return true;
    }
    var i := 0;
    while i < |a|
      invariant 0 <= i <= |a|
      invariant a[..i] == b[..i]
    {
      if a[i].created.None? && b[i].created.Some? {
        break;
      }
      if a[i].created.Some? && b[i].created.None? {
        break;
      }
      if a[i].created.Some? && b[i].created.Some? && a[i].created.value != b[i].created.value {
        break;
      }
      if a[i].createdBy != b[i].createdBy {
        break;
      }
      if a[i].author != b[i].author {
        break;
      }
      if a[i].comment != b[i].comment {
        break;
      }
      if a[i].emptyLayer != b[i].emptyLayer {
        break;
      }
      i := i + 1;
    }
    return i != |a|;
  }

  class ImageStore {
    var catalog: Catalog
    var images: seq<Image>
    var containers: seq<Container>

    /** Whether the n-th call into the store fails, which images it cannot open, and the calls made so far. */
    const fails: nat -> bool
    const blind: Outages
    var calls: nat

    ghost predicate Valid()
      reads this
    {
      UniqueIds(images)
    }

    /** Every image could be opened at every store call from `from` up to now. */
    ghost predicate Sighted(from: nat)
      reads this
    {
      Clear(blind, from, calls)
    }

    /** No store call from `from` up to now failed. */
    ghost predicate Unfailing(from: nat)
      reads this
    {
      forall n | from <= n < calls :: !fails(n)
    }

    ghost predicate Quiet(from: nat)
      reads this
    {
      Sighted(from) && Unfailing(from)
    }

    constructor (catalog: Catalog, images: seq<Image>, containers: seq<Container>,
                 fails: nat -> bool, blind: Outages)
      requires UniqueIds(images)
      ensures Valid() && calls == 0
      ensures this.catalog == catalog && this.images == images && this.containers == containers
      ensures this.fails == fails && this.blind == blind
    {
      this.catalog, this.images, this.containers := catalog, images, containers;
      this.fails, this.blind, this.calls := fails, blind, 0;
    }

    method Call() returns (ok: bool)
      modifies this`calls
      ensures calls == old(calls) + 1 && ok == !fails(old(calls))
    {
      ok := !fails(calls);
      calls := calls + 1;
    }

    /** An image that cannot be opened has no configuration if it is stored; otherwise that is an error. */
    method GetImageConfig(id: string) returns (r: Result<Option<Config>>)
      modifies this`calls
      ensures calls == old(calls) + 1
      ensures r == if fails(old(calls)) || !IsStored(images, id) then Err
                   else if blind(old(calls), id) then Ok(None) else Ok(SeenConfig(catalog, id))
    {
      var sees := !blind(calls, id);
      var ok := Call();
      if !ok || !IsStored(images, id) {
        return Err;
      }
      return if sees then Ok(SeenConfig(catalog, id)) else Ok(None);
    }

    /** Finds the first listed image that `child` was built on. */
    method GetParent(child: Image) returns (r: Result<Option<Image>>)
      requires child in images
      modifies this`calls
      ensures calls >= old(calls)
      ensures r.Ok? && r.value.Some? ==> r.value.value in images && ParentOf(catalog, r.value.value, child)
      ensures r.Ok? && Sighted(old(calls)) ==> r.value == FirstParent(catalog, images, child)
      ensures r.Err? ==> !Unfailing(old(calls)) || !LayerKnown(catalog, child)
      ensures fails(old(calls)) || !LayerKnown(catalog, child) ==> r.Err?
    {
      hide ParentOf, SeenConfig;
      var ok := Call();
      if !ok {
        return Err;
      }
      if child.topLayer != "" {
        ok := Call();
        if !ok || child.topLayer !in catalog.layers {
          return Err;
        }
      }
      var childConfig := GetImageConfig(child.id);
      if childConfig.Err? {
        return Err;
      }
      if childConfig.value.None? {
        if Sighted(old(calls)) {
          UnseenIsAlone(catalog, images, child);
        }
        return Ok(None);
      }
      for i := 0 to |images|
        invariant calls >= old(calls)
        invariant Sighted(old(calls)) ==>
                    FirstParent(catalog, images, child) == FirstParent(catalog, images[i..], child)
      {
        assert images[i..][0] == images[i] && images[i..][1..] == images[i + 1..];
        var matched := MatchParent(images[i], child, childConfig.value.value);
        if matched.Err? {
          return Err;
        }
        if matched.value {
          return Ok(Some(images[i]));
        }
      }
      assert images[|images|..] == [];
      return Ok(None);
    }

    /** The body of the parent search: does this candidate match the child? */
    method MatchParent(parent: Image, child: Image, c: Config) returns (r: Result<bool>)
      requires parent in images && SeenConfig(catalog, child.id) == Some(c) && LayerKnown(catalog, child)
      modifies this`calls
      ensures calls >= old(calls)
      ensures r.Ok? && (r.value || Sighted(old(calls))) ==> r.value == ParentOf(catalog, parent, child)
      ensures r.Err? ==> !Unfailing(old(calls))
    {
      if parent.id == child.id {
        return Ok(false);
      }
      if child.topLayer != "" && parent.topLayer != catalog.layers[child.topLayer]
         && parent.topLayer != child.topLayer
      {
        return Ok(false);
      }
      var parentConfig := GetImageConfig(parent.id);
      if parentConfig.Err? {
        return Err;
      }
      if parentConfig.value.None? {
        return Ok(false);
      }
      var p := parentConfig.value.value;
      if |p.history| + 1 != |c.history| {
        return Ok(false);
      }
      if |p.diffIds| > 0 {
        if |c.diffIds| < |p.diffIds| {
          return Ok(false);
        }
        var usesAll := UsesAllLayers(p.diffIds, c.diffIds);
        if !usesAll {
          return Ok(false);
        }
      }
      var differ := HistoriesDiffer(p.history, c.history[..|p.history|]);
      return Ok(!differ);
    }

    static method UsesAllLayers(parent: seq<string>, child: seq<string>) returns (all: bool)
      requires |parent| <= |child|
      ensures all <==> parent <= child
    {
      for i := 0 to |parent|
        invariant parent[..i] == child[..i]
      {
        if child[i] != parent[i] {
          return false;
        }
      }
      return true;
    }

    /** Lists the children of an image, at most `max` of them if `max` is positive. */
    method GetChildren(parent: Image, max: int) returns (r: Result<seq<string>>)
      requires parent in images
      modifies this`calls
      ensures calls >= old(calls) && (r.Ok? ==> calls >= old(calls) + 2)
      ensures r.Ok? && r.value != [] ==> HasChild(catalog, images, parent)
      ensures r.Ok? && r.value == [] && HasChild(catalog, images, parent) ==>
                Overlooked(catalog, images, [], parent, blind, Scan(old(calls), calls))
      ensures fails(old(calls)) || fails(old(calls) + 1) ==> r.Err?
      ensures r.Ok? && r.value == [] && SeenConfig(catalog, parent.id).Some? ==>
                blind(old(calls) + 1, parent.id)
                || forall x | x in images && x.id != parent.id :: LayerKnown(catalog, x)
      ensures r.Ok? && Sighted(old(calls)) ==>
                r.value <= ChildIds(catalog, images, parent) &&
                (max <= 0 || |r.value| < max ==> r.value == ChildIds(catalog, images, parent)) &&
                (max > 0 ==> |r.value| <= max)
      ensures !fails(old(calls)) && !fails(old(calls) + 1) && blind(old(calls) + 1, parent.id) ==> r == Ok([])
      ensures r.Err? ==> !Unfailing(old(calls)) || !LayersKnown(catalog, images)
    {
      hide ChildOf, SeenConfig, Missed;
      var children: seq<string> := [];
      var ok := Call();
      if !ok {
        return Err;
      }
      var parentConfig := GetImageConfig(parent.id);
      if parentConfig.Err? {
        return Err;
      }
      if parentConfig.value.None? {
        ParentUnread(parent, old(calls));
        return Ok([]);
      }
      assert ChildIds(catalog, images[..0], parent) == [];
      hide ChildIds;
      for i := 0 to |images|
        invariant calls >= old(calls) + 2
        invariant children != [] ==> HasChild(catalog, images, parent)
        invariant children == [] ==>
                    forall j | 0 <= j < i && images[j].id != parent.id :: LayerKnown(catalog, images[j])
        invariant children == [] ==>
                    forall j | 0 <= j < i && ChildOf(catalog, images[j], parent) ::
                      Missed(blind, Scan(old(calls), calls), images[j].id)
        invariant Sighted(old(calls)) ==> children == ChildIds(catalog, images[..i], parent)
        invariant max > 0 ==> |children| < max
      {
        ghost var begun := calls;
        ChildIdsUpTo(catalog, images, parent, i);
        var matched := MatchChild(images[i], parent, parentConfig.value.value);
        if matched.Err? {
          return Err;
        }
        StillMissed(old(calls), begun);
        if Sighted(old(calls)) {
          NothingMissed(old(calls), begun, images[i].id);
        }
        if matched.value {
          assert images[i] in images;
          children := children + [images[i].id];
          if max > 0 && |children| >= max {
            return Ok(children);
          }
        }
      }
      assert images[..|images|] == images;
      return Ok(children);
    }

    /** The configuration of the image was looked for with the second call and not found. */
    lemma ParentUnread(parent: Image, first: nat)
      requires calls == first + 2 && (blind(first + 1, parent.id) || SeenConfig(catalog, parent.id).None?)
      ensures HasChild(catalog, images, parent) ==>
                Overlooked(catalog, images, [], parent, blind, Scan(first, calls))
      ensures Sighted(first) ==> ChildIds(catalog, images, parent) == []
    {
      if SeenConfig(catalog, parent.id).None? {
        UnseenIsAlone(catalog, images, parent);
      }
      assert blind(first + 1, parent.id) ==> Missed(blind, Scan(first, calls), parent.id);
    }

    /** What a part of the calls missed, all of them missed. */
    lemma StillMissed(first: nat, begun: nat)
      requires first <= begun <= calls
      ensures forall id | Missed(blind, Scan(first, begun), id) || Missed(blind, Scan(begun, calls), id) ::
                Missed(blind, Scan(first, calls), id)
    {
    }

    lemma NothingMissed(first: nat, begun: nat, id: string)
      requires first <= begun <= calls && Sighted(first)
      ensures !Missed(blind, Scan(begun, calls), id)
    {
    }

    /** The body of the child scan: was this image built on the parent? */
    method MatchChild(child: Image, parent: Image, p: Config) returns (r: Result<bool>)
      requires child in images && SeenConfig(catalog, parent.id) == Some(p)
      modifies this`calls
      ensures calls >= old(calls)
      ensures r.Ok? && r.value ==> ChildOf(catalog, child, parent)
      ensures r.Ok? && !r.value && ChildOf(catalog, child, parent) ==>
                Missed(blind, Scan(old(calls), calls), child.id)
      ensures r.Err? ==> !Unfailing(old(calls)) || !LayerKnown(catalog, child)
      ensures child.id != parent.id && !LayerKnown(catalog, child) ==> r.Err?
    {
      if child.id == parent.id {
        return Ok(false);
      }
      if child.topLayer != "" {
        var ok := Call();
        if !ok || child.topLayer !in catalog.layers {
          return Err;
        }
        if catalog.layers[child.topLayer] != parent.topLayer && child.topLayer != parent.topLayer {
          return Ok(false);
        }
      }
      var childConfig := GetImageConfig(child.id);
      if childConfig.Err? {
        return Err;
      }
      if childConfig.value.None? {
        return Ok(false);
      }
      var c := childConfig.value.value;
      if |p.history| + 1 != |c.history| {
        return Ok(false);
      }
      var differ := HistoriesDiffer(p.history, c.history[..|p.history|]);
      return Ok(!differ);
    }

    /**
      The scan that stops at the first child decides "has a child" as a full scan would, unless it missed
      the image or all its children.
     */
    method ImageIsParent(image: Image) returns (r: Result<bool>)
      requires image in images
      modifies this`calls
      ensures calls >= old(calls) && (r.Ok? ==> calls >= old(calls) + 2)
      ensures r.Ok? && r.value ==> HasChild(catalog, images, image)
      ensures r.Ok? && !r.value && HasChild(catalog, images, image) ==>
                Overlooked(catalog, images, [], image, blind, Scan(old(calls), calls))
      ensures fails(old(calls)) || fails(old(calls) + 1) ==> r.Err?
      ensures r.Ok? && !r.value && SeenConfig(catalog, image.id).Some? ==>
                blind(old(calls) + 1, image.id)
                || forall x | x in images && x.id != image.id :: LayerKnown(catalog, x)
      ensures r.Ok? && Sighted(old(calls)) ==> (r.value <==> HasChild(catalog, images, image))
      ensures !fails(old(calls)) && !fails(old(calls) + 1) && blind(old(calls) + 1, image.id) ==> r == Ok(false)
      ensures r.Err? ==> !Unfailing(old(calls)) || !LayersKnown(catalog, images)
    {
      hide ChildOf, Overlooked, LayerKnown, SeenConfig;
      var children := GetChildren(image, 1);
      if children.Err? {
        return Err;
      }
      ChildIdsSpec(catalog, images, image);
      return Ok(|children.value| > 0);
    }

    /** Looks an image up by its id. */
    method GetImage(id: string) returns (r: Option<Image>)
      modifies this`calls
      ensures calls == old(calls) + 1
      ensures r.Some? ==> r.value in images && r.value.id == id
      ensures fails(old(calls)) ==> r.None?
      ensures r.None? ==> !Unfailing(old(calls)) || forall x | x in images :: x.id != id
    {
      var ok := Call();
      if !ok {
        return None;
      }
      for i := 0 to |images|
        invariant forall j | 0 <= j < i :: images[j].id != id
      {
        if images[i].id == id {
          return Some(images[i]);
        }
      }
      return None;
    }

    method RunningContainers(image: Image) returns (r: Result<seq<string>>)
      modifies this`calls
      ensures calls == old(calls) + 1
      ensures r.Ok? ==> (r.value != [] <==> Used(containers, image.id))
      ensures r.Err? <==> fails(old(calls))
    {
      var ok := Call();
      if !ok {
        return Err;
      }
      var ids: seq<string> := [];
      for i := 0 to |containers|
        invariant ids != [] <==> Used(containers[..i], image.id)
      {
        assert containers[..i + 1] == containers[..i] + [containers[i]];
        if containers[i].imageId == image.id {
          ids := ids + [containers[i].id];
        }
      }
      assert containers[..|containers|] == containers;
      return Ok(ids);
    }

    /** The store's own deletion: it removes exactly one unused, writable image or changes nothing. */
    method DeleteImage(image: Image) returns (ok: bool)
      requires Valid() && image in images
      modifies this`calls, this`images
      ensures Valid() && calls == old(calls) + 1
      ensures images == if ok then Keep(old(images), [image]) else old(images)
      ensures ok <==> !fails(old(calls)) && !Used(containers, image.id) && !image.readOnly
    {
      KeepUnique(images, [image]);
      ok := Call();
      if Used(containers, image.id) || image.readOnly {
        ok := false;
      }
      if ok {
        images := Keep(images, [image]);
      }
    }

    /**
      Deletes an image and climbs to the parents that became untagged leaves.  `scan` is the search that
      found no child of the image.
     */
    method RemoveImage(image: Image, ghost scan: Scan)
      returns (ok: bool, ghost order: seq<Image>, ghost scans: seq<Scan>)
      requires Valid() && image in images && |image.names| <= 1
      requires scan.first <= scan.end <= calls
      requires HasChild(catalog, images, image) ==> Overlooked(catalog, images, [], image, blind, scan)
      modifies this`calls, this`images
      ensures Valid() && calls >= old(calls)
      ensures images == Keep(old(images), order)
      ensures SafeUnlessMissed(catalog, containers, old(images), [image.id], order, blind, scans)
      ensures ScansWithin(scans, scan.first, calls)
      ensures Unfailing(old(calls)) && LayersKnown(catalog, old(images)) ==>
                image in order || Used(containers, image.id) || image.readOnly
      ensures fails(old(calls)) ==> !ok && order == []
      ensures Quiet(old(calls)) && Tidy(catalog, old(images)) ==>
                Swept(catalog, containers, old(images), order, [image.id]) &&
                (ok <==> !Used(containers, image.id) && !image.readOnly)
    {
      hide UniqueIds, Keep, SafeUnlessMissed, ScansWithin, Overlooked, Climbing, Swept, Tidy, HasChild, FirstParent,
           ParentOf;
      order, scans := [], [];
      SweptNothing(catalog, containers, images, [image.id]);
      NoScans(scan.first);
      ghost var tidy := Tidy(catalog, images);
      if tidy {
        TidyLayers(catalog, images);
      }
      var parent := GetParent(image);
      if parent.Err? {
        return false, order, scans;
      }
      if parent.value.Some? {
        NextParent(catalog, images, order, image, parent.value.value);
      }
      ok := DeleteImage(image);
      if !ok {
        if Quiet(old(calls)) {
          SweptOne(catalog, containers, old(images), order, image);
        }
        return false, order, scans;
      }
      SafeUnlessMissedExtend(catalog, containers, old(images), [image.id], order, image, blind, scans, scan);
      if tidy {
        ClimbDelete(catalog, containers, old(images), order, image);
      }
      assert order + [image] == [image] && scans + [scan] == [scan];
      order, scans := [image], [scan];
      OneScan(scan);
      ok, order, scans := RemoveParents(parent.value, old(images), [image.id], order, scans, scan.first);
      if Quiet(old(calls)) && tidy {
        SweptOne(catalog, containers, old(images), order, image);
      }
    }

    /** The climbing loop of a removal; `before` and `gone` say what the removal has done so far. */
    method RemoveParents(
      first: Option<Image>, ghost before: seq<Image>, ghost asked: seq<string>,
      ghost gone: seq<Image>, ghost goneScans: seq<Scan>, ghost since: nat)
      returns (ok: bool, ghost order: seq<Image>, ghost scans: seq<Scan>)
      requires Valid() && images == Keep(before, gone)
      requires SafeUnlessMissed(catalog, containers, before, asked, gone, blind, goneScans)
      requires since <= calls && ScansWithin(goneScans, since, calls)
      requires first.Some? ==> first.value in images && HasChild(catalog, before, first.value)
      modifies this`calls, this`images
      ensures Valid() && calls >= old(calls)
      ensures images == Keep(before, order) && gone <= order
      ensures SafeUnlessMissed(catalog, containers, before, asked, order, blind, scans)
      ensures ScansWithin(scans, since, calls)
      ensures forall z | z in order :: z in gone || HasChild(catalog, before, z)
      ensures Quiet(old(calls)) && Tidy(catalog, before)
              && Climbing(catalog, containers, before, gone, first) ==>
                ok && Climbing(catalog, containers, before, order, None)
    {
      hide UniqueIds, Keep, SafeUnlessMissed, ScansWithin, Overlooked, Climbing, Tidy, FirstParent, ParentOf,
           HasChild, Used, Depth;
      ghost var climbs := Tidy(catalog, before) && Climbing(catalog, containers, before, gone, first);
      if climbs {
        TidyLayers(catalog, before);
      }
      var parent := first;
      order, scans := gone, goneScans;
      ghost var searched: nat := calls;
      while parent.Some?
        invariant Valid() && calls >= old(calls)
        invariant images == Keep(before, order) && gone <= order
        invariant SafeUnlessMissed(catalog, containers, before, asked, order, blind, scans)
        invariant ScansWithin(scans, since, searched) && since <= searched <= calls
        invariant parent.Some? ==> parent.value in images && HasChild(catalog, before, parent.value)
        invariant forall z | z in order :: z in gone || HasChild(catalog, before, z)
        invariant climbs && Quiet(old(calls)) ==> Climbing(catalog, containers, before, order, parent)
        decreases if parent.None? then 0 else 1 + Depth(catalog, parent.value)
      {
        var p := parent.value;
        var next := GetParent(p);
        if next.Err? {
          ScansSoFar(scans, since, searched);
          return false, order, scans;
        }
        if next.value.Some? {
          NextParent(catalog, before, order, p, next.value.value);
        }
        ghost var begun := calls;
        var isParent := ImageIsParent(p);
        if isParent.Err? {
          ScansSoFar(scans, since, searched);
          return false, order, scans;
        }
        ghost var scan := Scan(begun, calls);
        if |p.names| > 0 || isParent.value {
          if climbs && Quiet(old(calls)) {
            ClimbPast(catalog, containers, before, order, p, None);
          }
          ScansSoFar(scans, since, searched);
          return true, order, scans;
        }
        var deleted := DeleteImage(p);
        if deleted {
          SafeUnlessMissedExtend(catalog, containers, before, asked, order, p, blind, scans, scan);
          if climbs && Quiet(old(calls)) {
            ClimbDelete(catalog, containers, before, order, p);
          }
          KeepKeep(before, order, [p]);
          LaterScan(scans, since, searched, scan);
          order, scans, searched := order + [p], scans + [scan], scan.end;
        } else if climbs && Quiet(old(calls)) {
          ClimbPast(catalog, containers, before, order, p, next.value);
        }
        parent := next.value;
      }
      ScansSoFar(scans, since, searched);
      ok := true;
    }

    lemma OneScan(scan: Scan)
      requires scan.first <= scan.end <= calls
      ensures ScansWithin([scan], scan.first, calls)
    {
    }

    lemma LaterScan(scans: seq<Scan>, since: nat, searched: nat, scan: Scan)
      requires ScansWithin(scans, since, searched) && since <= searched <= scan.first <= scan.end
      ensures ScansWithin(scans + [scan], since, scan.end)
    {
    }

    lemma ScansSoFar(scans: seq<Scan>, since: nat, searched: nat)
      requires ScansWithin(scans, since, searched) && searched <= calls
      ensures ScansWithin(scans, since, calls)
    {
    }

    /** One round of the deletion loop. */
    method DeleteOne(id: string) returns (ok: bool, ghost order: seq<Image>, ghost scans: seq<Scan>)
      requires Valid()
      modifies this`calls, this`images
      ensures Valid() && calls >= old(calls)
      ensures images == Keep(old(images), order)
      ensures SafeUnlessMissed(catalog, containers, old(images), [id], order, blind, scans)
      ensures ScansWithin(scans, old(calls), calls)
      ensures Unfailing(old(calls)) && LayersKnown(catalog, old(images)) && blind(old(calls) + 3, id) ==>
                forall x | x in old(images) && x.id == id && Deletable(containers, x) :: x in order
      ensures fails(old(calls)) || fails(old(calls) + 1) || fails(old(calls) + 2) || fails(old(calls) + 3) ==>
                !ok && order == []
      ensures Quiet(old(calls)) && Tidy(catalog, old(images)) ==>
                Swept(catalog, containers, old(images), order, [id]) &&
                (ok <==> Removable(containers, old(images), id))
    {
      hide SafeUnlessMissed, Overlooked, ScansWithin, Swept, Tidy, HasChild, UniqueIds, Keep, Removable, LayersKnown,
           LayerKnown, SeenConfig;
      NoScans(calls);
      order, scans := [], [];
      SweptNothing(catalog, containers, images, [id]);
      var found := GetImage(id);
      if found.None? {
        if forall x | x in images :: x.id != id {
          NothingToTake(catalog, containers, images, id);
          NotRemovable(containers, images, id);
        }
        return false, order, scans;
      }
      var image := found.value;
      RemovableIff(containers, images, image);
      if !Deletable(containers, image) || HasChild(catalog, images, image) {
        NothingToTake(catalog, containers, images, id);
      }
      if Tidy(catalog, images) {
        TidyLayers(catalog, images);
      }
      if image.readOnly {
        return false, order, scans;
      }
      var ctrIds := RunningContainers(image);
      if ctrIds.Err? {
        return false, order, scans;
      }
      if |ctrIds.value| > 0 && |image.names| <= 1 {
        return false, order, scans;
      }
      if |image.names| > 1 {
        return false, order, scans;
      }
      // From here on the names of the copy count as cleared.
      ghost var begun := calls;
      var isParent := ImageIsParent(image);
      if isParent.Err? {
        return false, order, scans;
      }
      if isParent.value {
        return true, order, scans;
      }
      ok, order, scans := RemoveImage(image, Scan(begun, calls));
      ScansFrom(scans, old(calls), begun);
    }

    /** Deletes the given images, leaving alone those that are tagged, read-only, in use or have children. */
    method DeleteImages(ids: seq<string>) returns (ok: bool, ghost order: seq<Image>, ghost scans: seq<Scan>)
      requires Valid()
      modifies this`calls, this`images
      ensures Valid() && calls >= old(calls)
      ensures images == Keep(old(images), order)
      ensures SafeUnlessMissed(catalog, containers, old(images), ids, order, blind, scans)
      ensures ScansWithin(scans, old(calls), calls)
      ensures Sighted(old(calls)) ==> SafeOrder(catalog, containers, old(images), ids, order)
      ensures Unfailing(old(calls)) && LayersKnown(catalog, old(images))
              && ids != [] && blind(old(calls) + 3, ids[0]) ==>
                forall x | x in old(images) && x.id == ids[0] && Deletable(containers, x) :: x in order
      ensures Quiet(old(calls)) && Tidy(catalog, old(images)) ==>
                Swept(catalog, containers, old(images), order, ids) &&
                (AllUntagged(old(images), ids) ==>
                   (ok <==> forall i | 0 <= i < |ids| ::
                              !Complains(catalog, containers, old(images), ids, i)))
    {
      hide UniqueIds, Keep, SafeOrder, SafeUnlessMissed, ScansWithin, Swept, Tidy, Complains,
           AllUntagged, Removable, LayersKnown, Deletable;
      ok, order, scans := true, [], [];
      SweptNothing(catalog, containers, images, ids);
      NoScans(old(calls));
      assert ids[..0] == [];
      for i := 0 to |ids|
        invariant Valid() && calls >= old(calls)
        invariant images == Keep(old(images), order)
        invariant SafeUnlessMissed(catalog, containers, old(images), ids, order, blind, scans)
        invariant ScansWithin(scans, old(calls), calls)
        invariant i == 0 ==> calls == old(calls) && order == []
        invariant Unfailing(old(calls)) && LayersKnown(catalog, old(images))
                  && i > 0 && blind(old(calls) + 3, ids[0]) ==>
                    forall x | x in old(images) && x.id == ids[0] && Deletable(containers, x) :: x in order
        invariant Quiet(old(calls)) && Tidy(catalog, old(images)) ==>
                    Swept(catalog, containers, old(images), order, ids[..i]) &&
                    (AllUntagged(old(images), ids) ==>
                       (ok <==> forall j | 0 <= j < i ::
                                  !Complains(catalog, containers, old(images), ids, j)))
      {
        ghost var begun := calls;
        if Tidy(catalog, old(images)) {
          TidyKeep(catalog, old(images), order);
        }
        var done; ghost var more; ghost var moreScans;
        done, more, moreScans := DeleteOne(ids[i]);
        if Quiet(old(calls)) && Tidy(catalog, old(images)) {
          TurnTaken(old(images), old(calls), ids, i, order, scans, begun, more);
        }
        if !done {
          ok := false;
        }
        SafeUnlessMissedAppend(
          catalog, containers, old(images), ids, [ids[i]], order, more, blind, scans, moreScans);
        MoreScans(scans, moreScans, old(calls), begun);
        KeepKeep(old(images), order, more);
        order, scans := order + more, scans + moreScans;
      }
      assert ids[..|ids|] == ids;
      if Sighted(old(calls)) {
        ClearIsSafe(catalog, containers, old(images), ids, order, blind, scans, old(calls), calls);
      }
    }

    lemma NoScans(since: nat)
      ensures forall end: nat :: ScansWithin([], since, end)
    {
    }

    lemma ScansFrom(scans: seq<Scan>, since: nat, begun: nat)
      requires since <= begun && ScansWithin(scans, begun, calls)
      ensures ScansWithin(scans, since, calls)
    {
    }

    lemma MoreScans(scans: seq<Scan>, more: seq<Scan>, since: nat, begun: nat)
      requires since <= begun <= calls && ScansWithin(scans, since, begun) && ScansWithin(more, begun, calls)
      ensures ScansWithin(scans + more, since, calls)
    {
    }

    /** What a turn without failures adds to the ones before it. */
    lemma TurnTaken(
      before: seq<Image>, since: nat, ids: seq<string>, i: nat, order: seq<Image>, scans: seq<Scan>,
      begun: nat, more: seq<Image>)
      requires UniqueIds(before) && i < |ids| && since <= begun <= calls && Sighted(since)
      requires SafeUnlessMissed(catalog, containers, before, ids, order, blind, scans)
      requires ScansWithin(scans, since, begun)
      requires Swept(catalog, containers, before, order, ids[..i])
      requires Swept(catalog, containers, Keep(before, order), more, [ids[i]])
      ensures Swept(catalog, containers, before, order + more, ids[..i + 1])
      ensures AllUntagged(before, ids) ==>
                (Complains(catalog, containers, before, ids, i) <==>
                   !Removable(containers, Keep(before, order), ids[i]))
    {
      hide UniqueIds, Keep, SafeOrder, SafeUnlessMissed, ScansWithin, Swept, Tidy, Complains, AllUntagged, Removable;
      assert ids[..i + 1] == ids[..i] + [ids[i]];
      SweptStep(catalog, containers, before, order, ids[..i], more, ids[i]);
      ClearIsSafe(catalog, containers, before, ids, order, blind, scans, since, begun);
      if AllUntagged(before, ids) {
        TurnComplains(catalog, containers, before, order, ids, i);
      }
    }

    method FindDanglingImages() returns (r: Result<seq<string>>)
      modifies this`calls
      ensures calls == old(calls) + 1
      ensures r == if fails(old(calls)) then Err else Ok(DanglingIds(images))
    {
      var ok := Call();
      if !ok {
        return Err;
      }
      var ids: seq<string> := [];
      for i := 0 to |images|
        invariant DanglingIds(images) == ids + DanglingIds(images[i..])
      {
        assert images[i..][0] == images[i] && images[i..][1..] == images[i + 1..];
        if |images[i].names| == 0 {
          ids := ids + [images[i].id];
        }
      }
      assert images[|images|..] == [] && ids + [] == ids;
      return Ok(ids);
    }

    /**
      Whatever fails, only untagged, unused, writable images go, and each goes after its children unless its
      own search for children missed it or all of them, so no more images go too early than there were
      calls with an outage.  If nothing failed, exactly the prunable images go.
     */
    method Prune() returns (ok: bool, ghost order: seq<Image>, ghost scans: seq<Scan>)
      requires Valid()
      modifies this`calls, this`images
      ensures Valid() && calls >= old(calls)
      ensures images == Keep(old(images), order)
      ensures Harmless(containers, old(images), [], order)
      ensures SafeUnlessMissed(catalog, containers, old(images), [], order, blind, scans)
      ensures ScansWithin(scans, old(calls), calls)
      ensures UnsafeDeletions(catalog, containers, old(images), [], order) <=
                BlindCalls(blind, old(images), old(calls), calls)
      ensures Sighted(old(calls)) ==> SafeOrder(catalog, containers, old(images), [], order)
      ensures Unfailing(old(calls)) && LayersKnown(catalog, old(images)) && DanglingIds(old(images)) != []
              && blind(old(calls) + 4, DanglingIds(old(images))[0]) ==>
                forall x | x in old(images) && x.id == DanglingIds(old(images))[0] && Deletable(containers, x) ::
                  x in order
      ensures fails(old(calls)) ==> !ok && order == []
      ensures Quiet(old(calls)) && Tidy(catalog, old(images)) ==>
                (forall x | x in old(images) ::
                   x in order <==> Prunable(catalog, containers, old(images), x)) &&
                var ids := DanglingIds(old(images));
                (ok <==> forall i | 0 <= i < |ids| ::
                           !Complains(catalog, containers, old(images), ids, i))
    {
      hide SafeOrder, SafeUnlessMissed, ScansWithin, Harmless, Tidy, Prunable, Swept, Complains, Deletable,
           LayersKnown, BlindCalls, UnsafeDeletions, Keep, UniqueIds, AllUntagged;
      order, scans := [], [];
      KeepNothingGone(images);
      SweptNothing(catalog, containers, images, []);
      NoScans(calls);
      NothingIsSafe(catalog, containers, images);
      var found := FindDanglingImages();
      if found.Err? {
        return false, order, scans;
      }
      DanglingIdsSpec(images);
      ok, order, scans := DeleteImages(found.value);
      SafeUnlessMissedUntagged(catalog, containers, old(images), found.value, order, blind, scans);
      PermittedIsHarmless(catalog, containers, old(images), [], order, blind, scans);
      ScansFrom(scans, old(calls), old(calls) + 1);
      OutagesBoundUnsafe(catalog, containers, old(images), [], order, blind, scans, old(calls), calls);
      if Sighted(old(calls)) {
        SafeOrderUntagged(catalog, containers, old(images), found.value, order);
      }
      if Quiet(old(calls)) && Tidy(catalog, old(images)) {
        SweptIsExact(catalog, containers, old(images), order, found.value);
      }
    }
  }

  lemma NothingIsSafe(cat: Catalog, containers: seq<Container>, images: seq<Image>)
    ensures SafeOrder(cat, containers, images, [], []) && Harmless(containers, images, [], [])
    ensures UnsafeDeletions(cat, containers, images, [], []) == 0
  {
  }
}
