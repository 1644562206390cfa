/** The image graph: ancestry (docker/image/image.go) and the rebasing of an image onto one of its ancestors (graph.go).
    Map iteration takes the ids in an arbitrary order.
  */
module Graphs {
  import opened Wrappers
  import opened Names
  import opened FileTree
  import opened Collect
  import opened Sorting
  import opened Squash
  import opened Layers

  datatype Image = Image(id: string, parent: string, size: int, layer: seq<Header>)

  datatype Result<+T> = Ok(value: T) | Err

  type Images = map<string, Image>

  function GetParent(images: Images, img: Image): Result<Option<Image>> {
    if img.parent == "" then Ok(None)
    else if img.parent in images then Ok(Some(images[img.parent]))
    else Err
  }

  /** AddImage files every image under its own id. */
  predicate Filed(images: Images) {
    forall id :: id in images ==> images[id].id == id
  }

  /** A rank that falls from every image to its parent: parent links have no cycle. */
  ghost predicate Ranked(images: Images, rank: map<string, nat>) {
    && images.Keys <= rank.Keys
    && forall id :: id in images && images[id].parent in images ==> rank[images[id].parent] < rank[id]
  }

  ghost predicate Acyclic(images: Images) {
    Filed(images) && exists rank: map<string, nat> :: Ranked(images, rank)
  }

  predicate NextIsParent(hs: seq<Image>, k: nat)
    requires k + 1 < |hs|
  {
    hs[k].parent != "" && hs[k + 1].id == hs[k].parent
  }

  /** Each image is the parent of the one before it. */
  ghost predicate Linked(images: Images, hs: seq<Image>) {
    && hs != []
    && (forall k :: 0 <= k < |hs| ==> hs[k].id in images && hs[k] == images[hs[k].id])
    && forall k :: 0 <= k < |hs| - 1 ==> NextIsParent(hs, k)
  }

  /** The whole ancestry of img, itself first. */
  ghost predicate IsHistory(images: Images, img: Image, hs: seq<Image>) {
    Linked(images, hs) && hs[0] == img && hs[|hs| - 1].parent == ""
  }

  /** Some ancestor names a parent the graph does not have. */
  ghost predicate Broken(images: Images, img: Image, hs: seq<Image>) {
    Linked(images, hs) && hs[0] == img && hs[|hs| - 1].parent != "" && hs[|hs| - 1].parent !in images
  }

  // Two linked sequences from the same image agree as far as both go.
  lemma {:induction false} LinkedAgree(images: Images, hs: seq<Image>, gs: seq<Image>, k: nat)
    requires Linked(images, hs) && Linked(images, gs) && hs[0] == gs[0]
    requires k < |hs| && k < |gs|
    ensures hs[k] == gs[k]
  {
    if k > 0 {
      LinkedAgree(images, hs, gs, k - 1);
      assert NextIsParent(hs, k - 1) && NextIsParent(gs, k - 1);
    }
  }

  lemma LinkedInner(images: Images, hs: seq<Image>)
    requires Linked(images, hs)
    ensures forall k :: 0 <= k < |hs| - 1 ==> hs[k].parent != "" && hs[k].parent in images
  {
    forall k | 0 <= k < |hs| - 1
      ensures hs[k].parent != "" && hs[k].parent in images
    {
      assert NextIsParent(hs, k);
    }
  }

  /** An image has at most one history, and none if its ancestry is broken. */
  lemma HistoryUnique(images: Images, img: Image, hs: seq<Image>, gs: seq<Image>)
    requires IsHistory(images, img, hs)
    ensures IsHistory(images, img, gs) ==> gs == hs
    ensures !Broken(images, img, gs)
  {
    if Linked(images, gs) && gs[0] == img {
      var m := if |hs| < |gs| then |hs| else |gs|;
      forall k: nat | k < m
        ensures hs[k] == gs[k]
      {
        LinkedAgree(images, hs, gs, k);
      }
      assert gs[m - 1] == hs[m - 1];
      LinkedInner(images, hs);
      LinkedInner(images, gs);
    }
  }

  lemma LinkedTail(images: Images, hs: seq<Image>)
    requires Linked(images, hs) && |hs| > 1
    ensures Linked(images, hs[1..])
    ensures hs[0].parent != "" && hs[1].id == hs[0].parent && hs[1].id in images && hs[1] == images[hs[1].id]
  {
    var tail := hs[1..];
    forall k | 0 <= k < |tail| - 1
      ensures NextIsParent(tail, k)
    {
      assert NextIsParent(hs, k + 1);
    }
    assert NextIsParent(hs, 0);
  }

  lemma LinkedSnoc(images: Images, hs: seq<Image>, next: Image)
    requires Linked(images, hs) && next.id in images && images[next.id] == next
    requires hs[|hs| - 1].parent != "" && next.id == hs[|hs| - 1].parent
    ensures Linked(images, hs + [next])
  {
    var gs := hs + [next];
    forall k | 0 <= k < |gs| - 1
      ensures NextIsParent(gs, k)
    {
      assert k < |hs| - 1 ==> NextIsParent(hs, k);
    }
  }

  // Along a history the rank falls, so no image comes twice.
  lemma {:induction false} RankFalls(images: Images, rank: map<string, nat>, hs: seq<Image>, i: nat, j: nat)
    requires Ranked(images, rank) && Linked(images, hs) && i < j < |hs|
    ensures rank[hs[j].id] < rank[hs[i].id]
    decreases j
  {
    assert NextIsParent(hs, j - 1);
    if i < j - 1 {
      RankFalls(images, rank, hs, i, j - 1);
    }
  }

  lemma HistoryDistinct(images: Images, hs: seq<Image>, i: nat, j: nat)
    requires Acyclic(images) && Linked(images, hs) && i < |hs| && j < |hs| && hs[i].id == hs[j].id
    ensures i == j
  {
    var rank :| Ranked(images, rank);
    if i < j {
      RankFalls(images, rank, hs, i, j);
    } else if j < i {
      RankFalls(images, rank, hs, j, i);
    }
  }

  function ParentSizes(hs: seq<Image>): int {
    if |hs| <= 1 then 0 else hs[1].size + ParentSizes(hs[1..])
  }

  /** The size of every proper ancestor counts once, and that of the image itself not at all. */
  lemma {:induction false} SizeCounts(hs: seq<Image>, k: nat, more: int)
    requires k < |hs|
    ensures var hs' := hs[k := hs[k].(size := hs[k].size + more)];
      ParentSizes(hs') == ParentSizes(hs) + if k == 0 then 0 else more
  {
    var hs' := hs[k := hs[k].(size := hs[k].size + more)];
    if k == 0 {
      assert hs'[1..] == hs[1..];
    } else {
      assert hs'[1..] == hs[1..][k - 1 := hs[1..][k - 1].(size := hs[1..][k - 1].size + more)];
      SizeCounts(hs[1..], k - 1, more);
    }
  }

  lemma {:induction false} NoSizes(hs: seq<Image>)
    requires forall k :: 0 <= k < |hs| ==> hs[k].size == 0
    ensures ParentSizes(hs) == 0
  {
    if |hs| <= 1 {
    } else {
      NoSizes(hs[1..]);
    }
  }

  /** The layers of hs[lo..hi], oldest first. */
  function Stack(hs: seq<Image>, lo: nat, hi: nat): seq<seq<Header>>
    requires lo <= hi <= |hs|
    decreases hi - lo
  {
    if lo == hi then [] else Stack(hs, lo + 1, hi) + [hs[lo].layer]
  }

  class Graph {
    var images: Images

    constructor ()
      ensures images == map[]
    {
      images := map[];
    }

    method AddImage(img: Image)
      modifies this
      ensures images == old(images)[img.id := img]
    {
      images := images[img.id := img];
    }

    /** History and WalkHistory: the ancestry, or an error when a parent is missing. */
    method History(img: Image) returns (r: Result<seq<Image>>)
      requires Acyclic(images) && img.id in images && images[img.id] == img
      ensures r.Ok? ==> IsHistory(images, img, r.value)
      ensures r.Err? ==> exists hs :: Broken(images, img, hs)
    {
      ghost var rank :| Ranked(images, rank);
      var parents: seq<Image> := [];
      var current := Some(img);
      while current.Some?
        invariant current.Some? ==> current.value.id in images && images[current.value.id] == current.value
        invariant current.Some? ==> Linked(images, parents + [current.value]) && (parents + [current.value])[0] == img
        invariant current.None? ==> IsHistory(images, img, parents)
        decreases if current.Some? then rank[current.value.id] + 1 else 0
      {
        parents := parents + [current.value];
        match GetParent(images, current.value) {
          case Err =>
            assert Broken(images, img, parents);
            return Err;
          case Ok(next) =>
            if next.Some? {
              LinkedSnoc(images, parents, next.value);
            }
            current := next;
        }
      }
      return Ok(parents);
    }

    /** Depth: the length of the history, -1 when a parent is missing. */
    method Depth(img: Image) returns (r: int)
      requires Acyclic(images) && img.id in images && images[img.id] == img
      ensures forall hs :: IsHistory(images, img, hs) ==> r == |hs|
      ensures (exists hs :: Broken(images, img, hs)) ==> r == -1
      ensures r == -1 || exists hs :: IsHistory(images, img, hs)
    {
      ghost var rank :| Ranked(images, rank);
      var count := 0;
      var parent := Some(img);
      ghost var parents: seq<Image> := [];
      while parent.Some?
        invariant count == |parents|
        invariant parent.Some? ==> parent.value.id in images && images[parent.value.id] == parent.value
        invariant parent.Some? ==> Linked(images, parents + [parent.value]) && (parents + [parent.value])[0] == img
        invariant parent.None? ==> IsHistory(images, img, parents)
        decreases if parent.Some? then rank[parent.value.id] + 1 else 0
      {
        count := count + 1;
        parents := parents + [parent.value];
        match GetParent(images, parent.value) {
          case Err =>
            assert Broken(images, img, parents);
            forall hs
              ensures !IsHistory(images, img, hs)
            {
              if IsHistory(images, img, hs) {
                HistoryUnique(images, img, hs, parents);
              }
            }
            return -1;
          case Ok(next) =>
            if next.Some? {
              LinkedSnoc(images, parents, next.value);
            }
            parent := next;
        }
      }
      forall hs
        ensures IsHistory(images, img, hs) ==> hs == parents
        ensures !Broken(images, img, hs)
      {
        HistoryUnique(images, img, parents, hs);
      }
      return count;
    }

    /** GetParentsSize: size plus the sizes of the proper ancestors there are. */
    method GetParentsSize(img: Image, size: int, ghost rank: map<string, nat>) returns (r: int)
      requires Filed(images) && Ranked(images, rank) && img.id in images && images[img.id] == img
      ensures forall hs :: (IsHistory(images, img, hs) || Broken(images, img, hs)) ==> r == size + ParentSizes(hs)
      decreases rank[img.id]
    {
      match GetParent(images, img) {
        case Ok(Some(p)) =>
          r := GetParentsSize(p, size + p.size, rank);
          forall hs: seq<Image> | IsHistory(images, img, hs) || Broken(images, img, hs)
            ensures r == size + ParentSizes(hs)
          {
            assert |hs| > 1;
            LinkedTail(images, hs);
            assert IsHistory(images, p, hs[1..]) || Broken(images, p, hs[1..]);
          }
        case _ =>
          r := size;
          forall hs: seq<Image> | IsHistory(images, img, hs) || Broken(images, img, hs)
            ensures |hs| == 1
          {
            if |hs| > 1 {
              LinkedTail(images, hs);
            }
          }
      }
    }

    /** expandID: an exact id wins, otherwise any id with the prefix. The test for a second match can never fire, so an
        ambiguous prefix is not an error. */
    method ExpandID(shortId: string) returns (r: Result<string>)
      ensures r.Ok? ==> r.value in images && HasPrefix(r.value, shortId)
      ensures shortId in images ==> r == Ok(shortId)
      ensures r.Err? <==> forall id :: id in images ==> !HasPrefix(id, shortId)
    {
      if shortId in images {
        return Ok(shortId);
      }
      var fullId := "";
      var ambiguous := false;
      var rest := images.Keys;
      while rest != {}
        invariant rest <= images.Keys && !ambiguous
        invariant fullId != "" ==> fullId in images && HasPrefix(fullId, shortId)
        invariant fullId == "" ==> forall id :: id in images && id !in rest ==> !HasPrefix(id, shortId)
      {
        var id :| id in rest;
        rest := rest - {id};
        if HasPrefix(id, shortId) {
          if fullId != "" && ambiguous {
            ambiguous := true;
          }
          fullId := id;
        }
      }
      if fullId == "" {
        return Err;
      }
      return Ok(fullId);
    }

    /** Rebase folds the layers between the image and its base, or reports why it cannot. The loop over the history
        stops before its first entry, so the layer of the image itself is not folded. */
    method Rebase(shortId: string, shortBase: string) returns (r: Result<Image>)
      requires Acyclic(images)
      ensures r.Ok? ==> exists id, base, hs, j :: RebasedAs(images, shortId, shortBase, r.value, id, base, hs, j)
      ensures r.Err? ==>
        || NoneSelected(images, shortId) || NoneSelected(images, shortBase)
        || (exists id, hs :: BrokenAncestry(images, shortId, id, hs))
        || exists id, base, hs :: BaseAbsent(images, shortId, shortBase, id, base, hs)
    {
      var id := ExpandID(shortId);
      if id.Err? {
        return Err;
      }
      var base := ExpandID(shortBase);
      if base.Err? {
        return Err;
      }
      var img := images[id.value];
      var history := History(img);
      if history.Err? {
        ghost var hs :| Broken(images, img, hs);
        assert BrokenAncestry(images, shortId, id.value, hs);
        return Err;
      }
      var i := |history.value| - 1;
      while history.value[i].id != base.value
        invariant 0 <= i < |history.value|
        invariant forall k :: i < k < |history.value| ==> history.value[k].id != base.value
        decreases i
      {
        i := i - 1;
        if i < 0 {
          assert BaseAbsent(images, shortId, shortBase, id.value, base.value, history.value);
          return Err;
        }
      }
      var saved, size := Squashed(history.value, i - 1, i);
      r := Ok(img.(parent := base.value, size := size, layer := saved));
      assert RebasedAs(images, shortId, shortBase, r.value, id.value, base.value, history.value, i);
    }

    // The layers of the history from entry from down to entry 1, folded into one.
    method Squashed(history: seq<Image>, from: int, ghost j: nat) returns (saved: seq<Header>, size: int)
      requires j < |history| && from == j - 1
      ensures IsSaved(saved, CollectedLayers(Between(history, j))) && size == TotalSize(saved)
    {
      hide IsSaved, CollectedAll;
      var i := from;
      var lr := new Layer();
      while i > 0
        invariant -1 <= i <= j - 1 && (i <= 0 ==> i == 0 || j == 0)
        invariant fresh(lr)
        invariant lr.files == if i < 0 then map[] else CollectedLayers(Stack(history, i + 1, j))
      {
        lr.Apply(history[i].layer);
        i := i - 1;
      }
      saved := lr.Save();
      size := lr.Size();
    }
  }

  predicate Selected(images: Images, shortId: string, id: string) {
    id in images && HasPrefix(id, shortId) && (shortId in images ==> id == shortId)
  }

  predicate NoneSelected(images: Images, shortId: string) {
    forall id :: id in images ==> !HasPrefix(id, shortId)
  }

  /** r is the image id on top of base, which is hs[j] in the history hs of the image. */
  ghost predicate RebasedAs(images: Images, shortId: string, shortBase: string, r: Image,
                            id: string, base: string, hs: seq<Image>, j: nat)
  {
    && Selected(images, shortId, id) && Selected(images, shortBase, base)
    && IsHistory(images, images[id], hs) && j < |hs| && hs[j].id == base
    && IsRebased(r, hs, j)
  }

  ghost predicate BrokenAncestry(images: Images, shortId: string, id: string, hs: seq<Image>) {
    Selected(images, shortId, id) && Broken(images, images[id], hs)
  }

  ghost predicate BaseAbsent(images: Images, shortId: string, shortBase: string, id: string, base: string,
                             hs: seq<Image>) {
    && Selected(images, shortId, id) && Selected(images, shortBase, base)
    && IsHistory(images, images[id], hs) && forall k :: 0 <= k < |hs| ==> hs[k].id != base
  }

  /** The layers strictly between hs[0] and hs[j], oldest first. */
  function Between(hs: seq<Image>, j: nat): seq<seq<Header>>
    requires j < |hs|
  {
    if j == 0 then [] else Stack(hs, 1, j)
  }

  /** r is hs[0] on top of hs[j] with the layers strictly between them squashed into one. */
  ghost predicate IsRebased(r: Image, hs: seq<Image>, j: nat) {
    && j < |hs|
    && r.id == hs[0].id && r.parent == hs[j].id
    && IsSaved(r.layer, CollectedLayers(Between(hs, j)))
    && r.size == TotalSize(r.layer)
  }

  // ---- what a rebased image shows ----

  /** The file system of hs[k]. */
  function FileSystem(world: World, hs: seq<Image>, k: nat): Outcome
    requires k <= |hs|
  {
    AfterLayers(world, map[], Stack(hs, k, |hs|))
  }

  lemma {:induction false} StackSplit(hs: seq<Image>, lo: nat, mid: nat, hi: nat)
    requires lo <= mid <= hi <= |hs|
    ensures Stack(hs, lo, hi) == Stack(hs, mid, hi) + Stack(hs, lo, mid)
    decreases mid - lo
  {
    if lo < mid {
      StackSplit(hs, lo + 1, mid, hi);
    }
  }

  lemma {:induction false} AfterBoth(world: World, t: Tree, a: seq<seq<Header>>, c: seq<seq<Header>>)
    ensures AfterLayers(world, t, a + c) ==
      var o := AfterLayers(world, t, a);
      if o.ok then AfterLayers(world, o.tree, c) else o
  {
    if c == [] {
      assert a + c == a;
    } else {
      assert (a + c)[..|a + c| - 1] == a + c[..|c| - 1];
      AfterBoth(world, t, a, c[..|c| - 1]);
    }
  }

  /** Over the file system of the base, the rebased layer gives the file system of the image's parent: the image's
      own layer is what is missing. An image rebased onto itself becomes its own parent and adds nothing. */
  lemma RebaseMeaning(world: World, r: Image, hs: seq<Image>, j: nat)
    requires j < |hs| && IsRebased(r, hs, j)
    requires FileSystem(world, hs, j).ok && TreeOk(FileSystem(world, hs, j).tree)
    requires StackOk(world, FileSystem(world, hs, j).tree, Between(hs, j))
    ensures AfterLayer(world, FileSystem(world, hs, j).tree, r.layer) == FileSystem(world, hs, if j == 0 then 0 else 1)
    ensures j > 0 ==> FileSystem(world, hs, 1).ok
    ensures j > 0 ==> FileSystem(world, hs, 0) == AfterLayer(world, FileSystem(world, hs, 1).tree, hs[0].layer)
    ensures j == 0 ==> r.parent == r.id && r.layer == []
  {
    hide TreeOk, StackOk, IsSaved, AfterLayer;
    var b := FileSystem(world, hs, j).tree;
    SquashPreservesMeaning(world, b, Between(hs, j), r.layer);
    if j == 0 {
      SavedNothing(r.layer);
    } else {
      StackSplit(hs, 1, j, |hs|);
      AfterBoth(world, map[], Stack(hs, j, |hs|), Stack(hs, 1, j));
    }
  }

  lemma SavedNothing(saved: seq<Header>)
    requires IsSaved(saved, map[])
    ensures saved == []
  {
    var keys :| IsListingOf(saved, keys, map[]);
    SomeMember(keys);
  }
}
