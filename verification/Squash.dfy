/** Squashing a stack of layers into one (layer.go): the Layer object, and the theorem that the saved layer
    means what the stack meant.
  */
module Squash {
  import opened Wrappers
  import opened Names
  import opened FileTree
  import opened Collect
  import opened Meaning
  import opened Sorting

  // ---- the conditions on a layer and a stack ----

  /** The directories a layer has listed and not taken back by its last entry. */
  function Listed(layer: seq<Header>): set<string> {
    if layer == [] then {}
    else
      var before := Listed(layer[..|layer| - 1]);
      var h := layer[|layer| - 1];
      if h.IsDir() then before + {Target(h)} else set q | q in before && !AtOrUnder(q, Target(h))
  }

  /** (L) the entries are clean and each comes after the directory it is in. */
  ghost predicate Listing(layer: seq<Header>) {
    forall i :: 0 <= i < |layer| ==> InOrder(layer, i)
  }

  ghost predicate InOrder(layer: seq<Header>, i: nat)
    requires i < |layer|
  {
    CleanEntry(layer[i]) && (Parent(Target(layer[i])) == "" || Parent(Target(layer[i])) in Listed(layer[..i]))
  }

  /** The tree that the collected entries s make of b. */
  function Made(s: Files, b: Tree): Tree {
    map p | p in s.Keys + b.Keys && Plain(p) && At(s, b, p).Some? :: At(s, b, p).value
  }

  lemma MadeIs(t: Tree, s: Files, b: Tree)
    requires TreeOk(t) && Represents(t, s, b)
    ensures t == Made(s, b)
  {
    hide Plain, BaseStart, Hidden, Landed;
    forall p
      ensures Get(t, p) == Get(Made(s, b), p)
    {
      if p in t {
        assert Plain(p);
      }
      if Plain(p) {
        assert Get(t, p) == At(s, b, p);
      }
    }
    assert forall p :: p in t <==> Get(t, p).Some?;
    assert forall p :: p in Made(s, b) <==> Get(Made(s, b), p).Some?;
    assert forall p :: p in t ==> Get(t, p) == Some(t[p]);
    assert forall p :: p in Made(s, b) ==> Get(Made(s, b), p) == Some(Made(s, b)[p]);
  }

  /** (S) when the layer ends, the path of every directory entry leads somewhere, and what it leads to shows the
      times of the last such entry; s is what has been collected by then. */
  ghost predicate Settled(world: World, s: Files, b: Tree, layer: seq<Header>) {
    ShowsTimes(world, Made(s, b), DirsOf(layer))
  }

  /** A directory the layer lists is still listed when the layer ends. */
  ghost predicate StillListed(layer: seq<Header>) {
    forall h :: h in layer && h.IsDir() ==> Target(h) in Listed(layer)
  }

  /** (F) again, for whiteouts too: nothing collected lies beneath where a non-directory lands. */
  ghost predicate FileAlone(s: Files, h: Header) {
    !h.IsDir() && !IsWhiteout(h) ==> forall k :: k in s ==> !Under(k, Target(h))
  }

  /** (W), (F), (D) and (C) at every entry of a layer. */
  ghost predicate Foldable(s: Files, b: Tree, layer: seq<Header>) {
    layer == [] ||
    var before := layer[..|layer| - 1];
    var h := layer[|layer| - 1];
    Foldable(s, b, before) && EntryOk(CollectedAll(s, before), b, h) && FileAlone(CollectedAll(s, before), h)
  }

  /** Every layer of the stack meets the conditions over what the layers below it collect. */
  ghost predicate StackOk(world: World, b: Tree, layers: seq<seq<Header>>) {
    forall i :: 0 <= i < |layers| ==> LayerOk(world, b, layers, i)
  }

  ghost predicate LayerOk(world: World, b: Tree, layers: seq<seq<Header>>, i: nat)
    requires i < |layers|
  {
    && Listing(layers[i])
    && Settled(world, CollectedLayers(layers[..i + 1]), b, layers[i])
    && Foldable(CollectedLayers(layers[..i]), b, layers[i])
  }

  lemma StackSnoc(world: World, b: Tree, layers: seq<seq<Header>>)
    requires layers != []
    ensures var before, top := layers[..|layers| - 1], layers[|layers| - 1];
      StackOk(world, b, layers) <==>
        && StackOk(world, b, before)
        && Listing(top) && Settled(world, CollectedLayers(layers), b, top) && Foldable(CollectedLayers(before), b, top)
  {
    hide Listing, Settled, Foldable, CollectedLayers;
    var n := |layers| - 1;
    var before := layers[..n];
    assert layers[..n + 1] == layers;
    assert LayerOk(world, b, layers, n) <==>
      && Listing(layers[n]) && Settled(world, CollectedLayers(layers), b, layers[n])
      && Foldable(CollectedLayers(before), b, layers[n]);
    forall i | 0 <= i < n
      ensures LayerOk(world, b, before, i) <==> LayerOk(world, b, layers, i)
    {
      assert before[..i] == layers[..i] && before[..i + 1] == layers[..i + 1] && before[i] == layers[i];
    }
  }

  // ---- collected entries lie in collected directories ----

  predicate DirKey(s: Files, p: string) {
    p == "" || (p in s && s[p].IsDir())
  }

  ghost predicate Rooted(s: Files) {
    forall k {:trigger Parent(k)} :: k in s ==> DirKey(s, Parent(k))
  }

  lemma {:induction false} RootedAbove(s: Files, k: string, p: string)
    requires Rooted(s) && k in s && Under(k, p) && p != ""
    ensures p in s && s[p].IsDir()
    decreases |k|
  {
    hide BaseStart;
    UnderParent(k, p);
    assert DirKey(s, Parent(k));
    if Parent(k) != p {
      UnderParent(Parent(k), p);
      RootedAbove(s, Parent(k), p);
    }
  }

  lemma RootedPreserved(s: Files, h: Header)
    requires NamesOk(s) && Rooted(s) && CleanEntry(h)
    requires DirKey(s, Parent(Target(h))) && FileAlone(s, h)
    ensures Rooted(Collected(s, h))
  {
    hide Plain, BaseStart, Collected, Wh, IsWhiteout, Target, FiledUnder, NamesOk, CleanEntry, Parent, TopLevel, Under;
    hide DirPart, Base;
    var p := Target(h);
    CollectedClean(s, h);
    CleanTarget(h);
    var s' := CollectedAt(s, h, p);
    ParentNotUnder(p);
    forall k | k in s'
      ensures DirKey(s', Parent(k))
    {
      WhParts(p);
      WhNotPlain(p);
      UnderParent(k, p);
      if k in s {
        KeyParent(s, k);
      }
    }
  }

  // The parent of a key is no whiteout.
  lemma KeyParent(s: Files, k: string)
    requires NamesOk(s) && k in s
    ensures Parent(k) == "" || (Plain(Parent(k)) && !TopLevel(k))
    ensures k != ""
  {
    hide NamesOk, BaseStart;
    assert FiledUnder(s, k) by {
      NamesOkKey(s, k);
    }
    WhParts(Target(s[k]));
  }

  lemma NamesOkKey(s: Files, k: string)
    requires NamesOk(s) && k in s
    ensures FiledUnder(s, k)
  {}

  // ---- one layer ----

  lemma ListingPrefix(layer: seq<Header>)
    requires layer != [] && Listing(layer)
    ensures Listing(layer[..|layer| - 1])
    ensures CleanEntry(layer[|layer| - 1])
    ensures Parent(Target(layer[|layer| - 1])) == "" ||
      Parent(Target(layer[|layer| - 1])) in Listed(layer[..|layer| - 1])
  {
    hide CleanEntry, Target, Parent, BaseStart, Listed;
    var before := layer[..|layer| - 1];
    forall i | 0 <= i < |before|
      ensures InOrder(before, i)
    {
      assert InOrder(layer, i) && before[i] == layer[i] && before[..i] == layer[..i];
    }
    assert InOrder(layer, |layer| - 1);
  }

  /** A directory the layer has listed is collected, under its last entry. */
  lemma {:induction false} ListedCollected(s: Files, layer: seq<Header>)
    requires NamesOk(s) && Listing(layer)
    ensures NamesOk(CollectedAll(s, layer))
    ensures forall q :: q in Listed(layer) ==>
      Plain(q) && q in CollectedAll(s, layer) && CollectedAll(s, layer)[q].IsDir() &&
      LastFor(DirsOf(layer), q) == Some(CollectedAll(s, layer)[q])
  {
    if layer == [] {
    } else {
      ListingPrefix(layer);
      ListedCollected(s, layer[..|layer| - 1]);
      ListedStep(CollectedAll(s, layer[..|layer| - 1]), layer);
    }
  }

  lemma ListedStep(s: Files, layer: seq<Header>)
    requires layer != [] && NamesOk(s) && CleanEntry(layer[|layer| - 1])
    requires var before := layer[..|layer| - 1];
      forall q :: q in Listed(before) ==> Plain(q) && q in s && s[q].IsDir() && LastFor(DirsOf(before), q) == Some(s[q])
    ensures var s' := Collected(s, layer[|layer| - 1]);
      NamesOk(s') &&
      forall q :: q in Listed(layer) ==>
        Plain(q) && q in s' && s'[q].IsDir() && LastFor(DirsOf(layer), q) == Some(s'[q])
  {
    hide Plain, BaseStart, Collected, Wh, IsWhiteout, Target, FiledUnder, NamesOk, CleanName, CleanEntry, IsDirEntry;
    var h := layer[|layer| - 1];
    var p := Target(h);
    CollectedClean(s, h);
    NamesPreserved(s, h);
    DirEntry(h);
    WhNotPlain(p);
    var dirs := DirsOf(layer[..|layer| - 1]);
    assert DirsOf(layer) == if h.IsDir() then dirs + [h] else dirs;
    assert (dirs + [h])[..|dirs|] == dirs;
    forall q | q in Listed(layer)
      ensures var s' := Collected(s, h);
        Plain(q) && q in s' && s'[q].IsDir() && LastFor(DirsOf(layer), q) == Some(s'[q])
    {
    }
  }

  lemma DirEntry(h: Header)
    requires CleanEntry(h)
    ensures IsDirEntry(h) == h.IsDir()
    ensures h.IsDir() ==> CleanName(h.name) == Target(h) && !IsWhiteout(h)
    ensures Plain(Target(h))
  {
    CleanEntryParts(h);
  }

  /** Entry by entry, a layer that meets the conditions does to the tree what collecting it says. */
  lemma {:induction false} EntriesSimulate(t: Tree, s: Files, b: Tree, layer: seq<Header>)
    requires TreeOk(t) && TreeOk(b) && NamesOk(s) && Rooted(s) && Represents(t, s, b)
    requires Listing(layer) && Foldable(s, b, layer)
    ensures AfterEntries(t, layer).ok && TreeOk(AfterEntries(t, layer).tree)
    ensures NamesOk(CollectedAll(s, layer)) && Rooted(CollectedAll(s, layer))
    ensures Represents(AfterEntries(t, layer).tree, CollectedAll(s, layer), b)
  {
    hide NamesOk, Rooted, Represents, TreeOk, Collected, AfterEntry, EntryOk, FileAlone, Target, CleanEntry;
    if layer == [] {
    } else {
      var before := layer[..|layer| - 1];
      var h := layer[|layer| - 1];
      ListingPrefix(layer);
      EntriesSimulate(t, s, b, before);
      ListedCollected(s, before);
      RootedStep(AfterEntries(t, before).tree, CollectedAll(s, before), b, h);
    }
  }

  lemma RootedStep(t: Tree, s: Files, b: Tree, h: Header)
    requires TreeOk(t) && TreeOk(b) && NamesOk(s) && Rooted(s) && Represents(t, s, b)
    requires CleanEntry(h) && DirKey(s, Parent(Target(h))) && EntryOk(s, b, h) && FileAlone(s, h)
    ensures AfterEntry(t, h).ok && TreeOk(AfterEntry(t, h).tree)
    ensures NamesOk(Collected(s, h)) && Rooted(Collected(s, h))
    ensures Represents(AfterEntry(t, h).tree, Collected(s, h), b)
  {
    hide Plain, BaseStart, Wh, NamesOk, TreeOk, Collected, AfterEntry, CleanEntry, EntryOk, IsWhiteout, Target, Rooted;
    CleanTarget(h);
    TargetParent(h);
    RootedStrands(s, h);
    StepSimulates(t, s, b, h);
    RootedPreserved(s, h);
  }

  lemma TargetParent(h: Header)
    requires CleanEntry(h)
    ensures Parent(Target(h)) == "" || Plain(Parent(Target(h)))
  {}

  lemma RootedStrands(s: Files, h: Header)
    requires Rooted(s) && CleanEntry(h)
    ensures StrandsNone(s, h)
  {
    hide BaseStart, Plain, Target, Rooted;
    CleanTarget(h);
    forall k | k in s && Under(k, Target(h))
      ensures Target(h) in s && s[Target(h)].IsDir()
    {
      RootedAbove(s, k, Target(h));
    }
  }

  lemma {:induction false} DirsOfMembers(layer: seq<Header>)
    requires Listing(layer)
    ensures forall h :: h in DirsOf(layer) ==> h in layer && h.IsDir() && CleanEntry(h)
  {
    hide CleanEntry, Target, Parent;
    if layer == [] {
    } else {
      ListingPrefix(layer);
      DirsOfMembers(layer[..|layer| - 1]);
      DirEntry(layer[|layer| - 1]);
    }
  }

  lemma LandedTimes(n: Node, was: Option<Node>)
    ensures Landed(n, was) == Landed(n, was).WithTimes(n)
    ensures Landed(n, was).IsDir() == n.IsDir()
  {}

  /** Setting the times of the directories again at the end of the layer changes nothing, and does not fail, if and only
      if the layer is settled. */
  lemma TimesSettled(world: World, t: Tree, s: Files, b: Tree, layer: seq<Header>)
    requires TreeOk(t) && Represents(t, s, b)
    ensures StampAll(world, t, DirsOf(layer)) == Outcome(true, t) <==> Settled(world, s, b, layer)
  {
    hide TreeOk, Represents, Made, ShowsTimes, StampAll, DirsOf;
    MadeIs(t, s, b);
    StampExact(world, t, DirsOf(layer));
  }

  /** It is when every directory it lists is still listed at its end. */
  lemma ListedSettled(world: World, s: Files, b: Tree, layer: seq<Header>)
    requires NamesOk(s) && Listing(layer) && StillListed(layer)
    ensures Settled(world, CollectedAll(s, layer), b, layer)
  {
    hide Plain, BaseStart, NamesOk, Listing, CleanEntry, CollectedAll, Listed, LastFor, Landed, IsDirEntry, Target;
    hide CleanName, DirsOf, ShowsTimes, Hidden;
    var s' := CollectedAll(s, layer);
    var t := Made(s', b);
    ListedCollected(s, layer);
    DirsOfMembers(layer);
    forall q | LastFor(DirsOf(layer), q).Some?
      ensures q in t && !t[q].kind.Symlink? && t[q] == t[q].WithTimes(LastFor(DirsOf(layer), q).value.node)
    {
      LastForMember(DirsOf(layer), q);
      DirEntry(LastFor(DirsOf(layer), q).value);
      LandedTimes(s'[q].node, Get(b, q));
      assert At(s', b, q) == Some(Landed(s'[q].node, Get(b, q)));
    }
    DirectTimes(world, t, DirsOf(layer));
  }

  lemma LayerSimulates(world: World, t: Tree, s: Files, b: Tree, layer: seq<Header>)
    requires TreeOk(t) && TreeOk(b) && NamesOk(s) && Rooted(s) && Represents(t, s, b)
    requires Listing(layer) && Settled(world, CollectedAll(s, layer), b, layer) && Foldable(s, b, layer)
    ensures AfterLayer(world, t, layer).ok && TreeOk(AfterLayer(world, t, layer).tree)
    ensures NamesOk(CollectedAll(s, layer)) && Rooted(CollectedAll(s, layer))
    ensures Represents(AfterLayer(world, t, layer).tree, CollectedAll(s, layer), b)
  {
    hide Represents, NamesOk, Rooted, TreeOk, Listing, Settled, Foldable, CollectedAll, AfterEntries, StampAll, DirsOf;
    EntriesSimulate(t, s, b, layer);
    TimesSettled(world, AfterEntries(t, layer).tree, CollectedAll(s, layer), b, layer);
  }

  /** A layer all of whose entries meet their conditions means what is collected from it if and only if it is
      settled. */
  lemma LayerExact(world: World, t: Tree, s: Files, b: Tree, layer: seq<Header>)
    requires TreeOk(t) && TreeOk(b) && NamesOk(s) && Rooted(s) && Represents(t, s, b)
    requires Listing(layer) && Foldable(s, b, layer)
    ensures var o := AfterLayer(world, t, layer);
      o.ok && Represents(o.tree, CollectedAll(s, layer), b) <==> Settled(world, CollectedAll(s, layer), b, layer)
  {
    hide Represents, NamesOk, Rooted, TreeOk, Listing, Settled, Foldable, CollectedAll, AfterEntries, StampAll, DirsOf;
    var t' := AfterEntries(t, layer).tree;
    var s' := CollectedAll(s, layer);
    EntriesSimulate(t, s, b, layer);
    TimesSettled(world, t', s', b, layer);
    if AfterLayer(world, t, layer).ok && Represents(AfterLayer(world, t, layer).tree, s', b) {
      StampTreeOk(world, t', DirsOf(layer));
      RepresentsUnique(t', AfterLayer(world, t, layer).tree, s', b);
    }
  }

  lemma {:induction false} StampTreeOk(world: World, t: Tree, dirs: seq<Header>)
    requires TreeOk(t)
    ensures TreeOk(StampAll(world, t, dirs).tree)
  {
    hide Plain, BaseStart, CleanName, Parent;
    if dirs == [] {
    } else {
      StampTreeOk(world, t, dirs[..|dirs| - 1]);
    }
  }

  lemma {:induction false} StackSimulates(world: World, b: Tree, layers: seq<seq<Header>>)
    requires TreeOk(b) && StackOk(world, b, layers)
    ensures AfterLayers(world, b, layers).ok && TreeOk(AfterLayers(world, b, layers).tree)
    ensures NamesOk(CollectedLayers(layers)) && Rooted(CollectedLayers(layers))
    ensures Represents(AfterLayers(world, b, layers).tree, CollectedLayers(layers), b)
  {
    hide Represents, NamesOk, Rooted, TreeOk, Listing, Settled, Foldable, CollectedAll, AfterLayer, StackOk;
    if layers == [] {
      NothingCollected(b);
    } else {
      var before := layers[..|layers| - 1];
      StackSnoc(world, b, layers);
      StackSimulates(world, b, before);
      LayerSimulates(world, AfterLayers(world, b, before).tree, CollectedLayers(before), b, layers[|layers| - 1]);
    }
  }

  lemma NothingCollected(b: Tree)
    ensures NamesOk(map[]) && Rooted(map[]) && Represents(b, map[], b)
  {
    hide Plain, BaseStart, Landed;
    forall p | Plain(p)
      ensures !Hidden(map[], p)
    {
      NothingHidden(p);
    }
  }

  lemma {:induction false} NothingHidden(p: string)
    ensures !Hidden(map[], p)
    decreases |p|
  {
    if TopLevel(p) {
    } else {
      NothingHidden(Parent(p));
    }
  }

  // ---- the saved layer ----

  /** s holds the headers of the entries in the order Save emits them. */
  ghost predicate IsSaved(hs: seq<Header>, s: Files) {
    exists keys: seq<string> :: IsListingOf(hs, keys, s)
  }

  ghost predicate IsListingOf(hs: seq<Header>, keys: seq<string>, s: Files) {
    && Increasing(keys)
    && (forall k :: k in keys <==> k in s)
    && |hs| == |keys|
    && (forall i :: 0 <= i < |keys| ==> hs[i] == s[keys[i]])
  }

  function Restrict(s: Files, keys: seq<string>): Files {
    map k | k in s && k in keys :: s[k]
  }

  // In increasing order the directory a key is in comes before it.
  lemma EarlierKey(keys: seq<string>, i: nat, p: string)
    requires Increasing(keys) && i < |keys| && p in keys && Less(p, keys[i])
    ensures p in keys[..i]
  {
    var j :| 0 <= j < |keys| && keys[j] == p;
    LessIrreflexive(p);
    if i < j {
      LessTransitive(p, keys[i], p);
    }
    assert keys[..i][j] == p;
  }

  lemma LastKeyNew(keys: seq<string>)
    requires Increasing(keys) && keys != []
    ensures keys[|keys| - 1] !in keys[..|keys| - 1]
  {
    LessIrreflexive(keys[|keys| - 1]);
  }

  /** Collecting the first entries of a saved layer gives back just those entries. */
  lemma {:induction false} SavedCollects(hs: seq<Header>, keys: seq<string>, s: Files, b: Tree)
    requires NamesOk(s) && Rooted(s) && Increasing(keys) && |hs| == |keys|
    requires forall i :: 0 <= i < |keys| ==> keys[i] in s && hs[i] == s[keys[i]]
    ensures CollectedAll(map[], hs) == Restrict(s, keys)
    ensures Foldable(map[], b, hs)
    ensures Listed(hs) == set k | k in keys && k in s && s[k].IsDir()
  {
    hide NamesOk, Rooted, Increasing, EntryOk, FileAlone, Collected, Target;
    if keys == [] {
      assert Restrict(s, keys) == map[];
    } else {
      var n := |keys| - 1;
      assert Increasing(keys[..n]) by {
        IncreasingPrefix(keys);
      }
      SavedCollects(hs[..n], keys[..n], s, b);
      LastKeyNew(keys);
      assert forall k :: k in keys <==> k in keys[..n] || k == keys[n] by {
        assert keys == keys[..n] + [keys[n]];
      }
      SavedStep(s, Restrict(s, keys[..n]), keys[n], b);
      assert Collected(Restrict(s, keys[..n]), hs[n]) == Restrict(s, keys);
      SavedListed(s, keys, hs);
    }
  }

  lemma IncreasingPrefix(keys: seq<string>)
    requires Increasing(keys) && keys != []
    ensures Increasing(keys[..|keys| - 1])
  {}

  lemma SavedStep(s: Files, sub: Files, k: string, b: Tree)
    requires NamesOk(s) && Rooted(s) && k in s && k !in sub
    requires forall x :: x in sub ==> x in s && sub[x] == s[x]
    ensures Collected(sub, s[k]) == sub[k := s[k]]
    ensures EntryOk(sub, b, s[k]) && FileAlone(sub, s[k])
  {
    hide Plain, BaseStart, Wh, IsWhiteout, Target, Collected, CleanEntry, Under, Rooted;
    var h := s[k];
    assert FiledUnder(s, k);
    assert NamesOk(sub) by {
      forall x | x in sub
        ensures FiledUnder(sub, x)
      {
        assert FiledUnder(s, x);
      }
    }
    CleanTarget(h);
    WhNotPlain(Target(h));
    CollectedClean(sub, h);
    DirEntry(h);
    if IsWhiteout(h) {
      assert Target(h) !in s;
    } else {
      assert Wh(k) !in s;
      if !h.IsDir() {
        forall x | x in sub
          ensures !Under(x, k)
        {
          if Under(x, k) {
            RootedAbove(s, x, k);
          }
        }
      }
    }
  }

  lemma SavedListed(s: Files, keys: seq<string>, hs: seq<Header>)
    requires NamesOk(s) && Rooted(s) && |hs| == |keys| > 0
    requires forall i :: 0 <= i < |keys| ==> keys[i] in s && hs[i] == s[keys[i]]
    requires Listed(hs[..|hs| - 1]) == set k | k in keys[..|keys| - 1] && k in s && s[k].IsDir()
    ensures Listed(hs) == set k | k in keys && k in s && s[k].IsDir()
  {
    hide Plain, BaseStart, Wh, IsWhiteout, Target, Rooted, CleanEntry, Under, CleanName, IsDirEntry;
    var n := |keys| - 1;
    var k := keys[n];
    var h := hs[n];
    assert forall x :: x in keys <==> x in keys[..n] || x == k by {
      assert keys == keys[..n] + [k];
    }
    assert FiledUnder(s, k);
    CleanTarget(h);
    DirEntry(h);
    if !h.IsDir() {
      forall q | q in s && s[q].IsDir()
        ensures !AtOrUnder(q, Target(h))
      {
        if IsWhiteout(h) {
          assert Target(h) !in s;
        }
        if Under(q, Target(h)) {
          RootedAbove(s, q, Target(h));
        }
      }
    }
  }

  /** A saved layer meets every condition over any base, and collecting it gives back the collected entries. */
  lemma SavedIsGood(world: World, hs: seq<Header>, s: Files, b: Tree)
    requires NamesOk(s) && Rooted(s) && IsSaved(hs, s)
    ensures Listing(hs) && Settled(world, s, b, hs) && Foldable(map[], b, hs)
    ensures CollectedAll(map[], hs) == s
  {
    hide NamesOk, Rooted, CollectedAll, Foldable, Listing, Settled, StillListed, Represents, IsListingOf;
    var keys :| IsListingOf(hs, keys, s);
    SavedSame(hs, keys, s, b);
    SavedListing(hs, keys, s, b);
    NothingCollected(b);
    ListedSettled(world, map[], b, hs);
  }

  lemma SavedSame(hs: seq<Header>, keys: seq<string>, s: Files, b: Tree)
    requires NamesOk(s) && Rooted(s) && IsListingOf(hs, keys, s)
    ensures CollectedAll(map[], hs) == s && Foldable(map[], b, hs)
  {
    hide NamesOk, Rooted, Increasing, Foldable, CollectedAll, Listed;
    SavedCollects(hs, keys, s, b);
    assert Restrict(s, keys) == s;
  }

  lemma SavedListing(hs: seq<Header>, keys: seq<string>, s: Files, b: Tree)
    requires NamesOk(s) && Rooted(s) && IsListingOf(hs, keys, s)
    ensures Listing(hs) && StillListed(hs)
  {
    hide NamesOk, Rooted, IsListingOf, Listed, Target, CleanEntry, Parent;
    forall i | 0 <= i < |hs|
      ensures CleanEntry(hs[i])
      ensures Parent(Target(hs[i])) == "" || Parent(Target(hs[i])) in Listed(hs[..i])
      ensures hs[i].IsDir() ==> Target(hs[i]) in Listed(hs)
    {
      SavedEntry(hs, keys, s, b, i);
    }
  }

  lemma SavedEntry(hs: seq<Header>, keys: seq<string>, s: Files, b: Tree, i: nat)
    requires NamesOk(s) && Rooted(s) && IsListingOf(hs, keys, s) && i < |hs|
    ensures CleanEntry(hs[i])
    ensures Parent(Target(hs[i])) == "" || Parent(Target(hs[i])) in Listed(hs[..i])
    ensures hs[i].IsDir() ==> Target(hs[i]) in Listed(hs)
  {
    hide NamesOk, Rooted, Increasing, Listed, Target, CleanEntry, Parent;
    SavedParent(s, keys, i);
    SavedPrefix(hs, keys, s, b, i);
    SavedPrefix(hs, keys, s, b, |hs|);
    assert hs[..|hs|] == hs && keys[..|hs|] == keys;
  }

  lemma SavedPrefix(hs: seq<Header>, keys: seq<string>, s: Files, b: Tree, i: nat)
    requires NamesOk(s) && Rooted(s) && IsListingOf(hs, keys, s) && i <= |hs|
    ensures Listed(hs[..i]) == set k | k in keys[..i] && k in s && s[k].IsDir()
  {
    hide NamesOk, Rooted, Foldable, CollectedAll, Listed, Less;
    assert Increasing(keys[..i]);
    SavedCollects(hs[..i], keys[..i], s, b);
  }

  lemma SavedParent(s: Files, keys: seq<string>, i: nat)
    requires NamesOk(s) && Rooted(s) && Increasing(keys) && i < |keys|
    requires forall k :: k in keys <==> k in s
    ensures keys[i] in s && CleanEntry(s[keys[i]])
    ensures var p := Parent(Target(s[keys[i]])); p == "" || (p in keys[..i] && p in s && s[p].IsDir())
    ensures s[keys[i]].IsDir() ==> Target(s[keys[i]]) == keys[i]
  {
    hide Increasing, Plain, BaseStart, Less, Wh;
    var k := keys[i];
    assert k in s && FiledUnder(s, k);
    var h := s[k];
    DirEntry(h);
    WhParts(Target(h));
    var p := Parent(k);
    assert DirKey(s, p);
    if p != "" {
      ParentPrefix(k);
      PrefixLess(p, k);
      EarlierKey(keys, i, p);
    }
  }

  lemma ParentPrefix(k: string)
    requires k != ""
    ensures HasPrefix(k, Parent(k)) && k != Parent(k)
  {}

  /** Squashing preserves meaning: over a base tree, the layers of a stack that meets the conditions succeed one after
      another, and the one layer saved for the stack succeeds with the same tree. */
  lemma SquashPreservesMeaning(world: World, b: Tree, layers: seq<seq<Header>>, saved: seq<Header>)
    requires TreeOk(b) && StackOk(world, b, layers) && IsSaved(saved, CollectedLayers(layers))
    ensures exists t ::
      TreeOk(t) && AfterLayers(world, b, layers) == Outcome(true, t) && AfterLayer(world, b, saved) == Outcome(true, t)
  {
    hide TreeOk, StackOk, IsSaved, NamesOk, Rooted, Represents, Listing, Settled, Foldable, CollectedAll;
    hide AfterLayer, AfterLayers, CollectedLayers;
    var s := CollectedLayers(layers);
    StackSimulates(world, b, layers);
    SavedIsGood(world, saved, s, b);
    NothingCollected(b);
    LayerSimulates(world, b, map[], b, saved);
    RepresentsUnique(AfterLayer(world, b, saved).tree, AfterLayers(world, b, layers).tree, s, b);
  }

  // ---- the conditions on one entry are exact ----

  /** Over rooted collected entries, collecting an entry means the same as applying it if and only if the entry
      meets (W), (F), (D) and (C). */
  lemma StepExact(t: Tree, s: Files, b: Tree, h: Header)
    requires TreeOk(t) && TreeOk(b) && NamesOk(s) && Rooted(s) && Represents(t, s, b)
    requires CleanEntry(h) && DirKey(s, Parent(Target(h)))
    ensures AfterEntry(t, h).ok
    ensures Represents(AfterEntry(t, h).tree, Collected(s, h), b) <==> EntryOk(s, b, h)
  {
    hide Plain, BaseStart, Wh, Collected, AfterEntry, CleanEntry, IsWhiteout, Target, NamesOk, Rooted, TreeOk;
    hide EntryOk, Represents;
    var p := Target(h);
    CleanTarget(h);
    ParentThere(t, s, b, h);
    RootedStrands(s, h);
    AppliedClean(t, h);
    AppliedTreeOk(t, h, p);
    CollectedClean(s, h);
    NamesPreserved(s, h);
    if EntryOk(s, b, h) {
      StepSimulates(t, s, b, h);
    } else {
      EntryNeeded(t, s, b, h, p);
    }
  }

  lemma ParentThere(t: Tree, s: Files, b: Tree, h: Header)
    requires Represents(t, s, b) && CleanEntry(h) && DirKey(s, Parent(Target(h)))
    ensures DirAt(t, Parent(Target(h)))
  {
    hide Plain, BaseStart, Target, CleanEntry, Landed;
    var q := Parent(Target(h));
    TargetParent(h);
    if q != "" {
      LandedTimes(s[q].node, Get(b, q));
      assert Get(t, q) == At(s, b, q);
    }
  }

  // What h does not touch above p stays visible.
  lemma StillVisible(t: Tree, s: Files, b: Tree, h: Header, p: string)
    requires TreeOk(t) && NamesOk(s) && Represents(t, s, b) && Plain(p) && DirAt(t, Parent(p))
    ensures !TopLevel(p) ==> !Hidden(CollectedAt(s, h, p), Parent(p))
    ensures p !in CollectedAt(s, h, p) && Wh(p) !in CollectedAt(s, h, p) ==> !Hidden(CollectedAt(s, h, p), p)
    ensures !IsWhiteout(h) && h.IsDir() ==> !Hidden(CollectedAt(s, h, p), p)
  {
    hide Plain, BaseStart, IsWhiteout, Wh, Under, Represents, NamesOk, TreeOk;
    var s' := CollectedAt(s, h, p);
    WhNotPlain(p);
    TopLevelParent(p);
    if !TopLevel(p) {
      VisibleDir(t, s, b, Parent(p));
      PlainParent(p);
      ParentNotUnder(p);
      forall a | Plain(a) && !AtOrUnder(a, p)
        ensures HideAt(s, a) <==> HideAt(s', a)
      {
        WhApart(a, p);
        WhNotPlain(a);
      }
      HiddenAway(s, s', p, Parent(p));
    }
  }

  // Without (W) the base's path shows through again.
  lemma NeedsWhiteoutOk(t: Tree, s: Files, b: Tree, h: Header, p: string)
    requires TreeOk(t) && NamesOk(s) && Represents(t, s, b) && Plain(p) && DirAt(t, Parent(p))
    requires p == Target(h) && !WhiteoutOk(s, b, h)
    ensures Get(AppliedAt(t, h, p), p) != At(CollectedAt(s, h, p), b, p)
  {
    hide Plain, BaseStart, IsWhiteout, Target, Wh, Represents, TreeOk, Hidden;
    StillVisible(t, s, b, h, p);
  }

  // Without (F) a collected addition outlives the file that replaced the directory it was in.
  lemma NeedsFileOk(t: Tree, s: Files, b: Tree, h: Header, p: string)
    requires TreeOk(t) && NamesOk(s) && Represents(t, s, b) && Plain(p)
    requires p == Target(h) && !FileOk(s, h)
    ensures exists k :: Plain(k) && Get(AppliedAt(t, h, p), k) != At(CollectedAt(s, h, p), b, k)
  {
    hide Plain, BaseStart, IsWhiteout, Target, Wh, TreeOk, Hidden, Landed;
    var k :| k in s && Plain(k) && Under(k, p);
    assert Get(t, k) == At(s, b, k);
    AboveIsDir(t, k, p);
    WhNotPlain(p);
    assert Get(AppliedAt(t, h, p), k) != At(CollectedAt(s, h, p), b, k);
  }

  lemma {:induction false} VisibleBelow(s: Files, p: string, q: string)
    requires forall a :: Plain(a) && Under(a, p) ==> !HideAt(s, a)
    requires Plain(q) && Under(q, p) && !Hidden(s, p)
    ensures !Hidden(s, q)
    decreases |q|
  {
    hide Plain, HideAt, BaseStart;
    UnderParent(q, p);
    PlainParent(q);
    if Parent(q) != p {
      VisibleBelow(s, p, Parent(q));
    }
  }

  // Without (D) what the base has beneath the directory shows through again.
  lemma NeedsDirOk(t: Tree, s: Files, b: Tree, h: Header, p: string)
    requires TreeOk(t) && TreeOk(b) && NamesOk(s) && Rooted(s) && Represents(t, s, b)
    requires Plain(p) && DirAt(t, Parent(p)) && !IsWhiteout(h)
    requires p == Target(h) && !DirOk(s, b, h)
    ensures exists k :: Plain(k) && Get(AppliedAt(t, h, p), k) != At(CollectedAt(s, h, p), b, k)
  {
    hide Plain, BaseStart, IsWhiteout, Target, Hidden, HideAt, Landed, TopLevel, Parent, Rooted, NamesOk, TreeOk;
    var q :| q in b && Under(q, p);
    BaseBelowVisible(t, s, b, h, p, q);
    HiddenBelow(s, p, p);
    assert Get(t, p) == At(s, b, p);
    AddedDirFresh(t, s, b, h, p, q);
    assert Get(AppliedAt(t, h, p), q) != At(CollectedAt(s, h, p), b, q);
  }

  lemma BaseBelowVisible(t: Tree, s: Files, b: Tree, h: Header, p: string, q: string)
    requires TreeOk(t) && TreeOk(b) && NamesOk(s) && Rooted(s) && Represents(t, s, b)
    requires Plain(p) && DirAt(t, Parent(p)) && !IsWhiteout(h) && h.IsDir() && HideAt(s, p)
    requires q in b && Under(q, p)
    ensures Plain(q) && !Hidden(CollectedAt(s, h, p), q)
  {
    hide Plain, BaseStart, IsWhiteout, Hidden, TopLevel, Parent, Rooted, NamesOk, Represents, Under;
    var s' := CollectedAt(s, h, p);
    StillVisible(t, s, b, h, p);
    forall a | Plain(a) && Under(a, p)
      ensures !HideAt(s', a)
    {
      NothingUnderHidden(s, p, a);
      UnderIrreflexive(a, p);
      WhNotPlain(a);
    }
    VisibleBelow(s', p, q);
  }

  lemma UnderIrreflexive(a: string, p: string)
    requires Under(a, p)
    ensures a != p
  {}

  // A directory that lands where the collected entries took something away starts empty.
  lemma AddedDirFresh(t: Tree, s: Files, b: Tree, h: Header, p: string, q: string)
    requires TreeOk(t) && Represents(t, s, b) && Plain(p) && Hidden(s, p) && HideAt(s, p) && NamesOk(s)
    requires !IsWhiteout(h) && Under(q, p)
    ensures q !in AppliedAt(t, h, p)
  {
    hide Plain, BaseStart, IsWhiteout, Hidden, Landed, Wh, Parent, TreeOk, FiledUnder;
    assert Get(t, p) == At(s, b, p);
    if p in s {
      LandedTimes(s[p].node, Get(b, p));
    }
    UnderIrreflexive(q, p);
    if q in t {
      AboveIsDir(t, q, p);
    }
  }

  // Rooted entries have nothing beneath a path they take away.
  lemma NothingUnderHidden(s: Files, p: string, a: string)
    requires NamesOk(s) && Rooted(s) && HideAt(s, p) && Plain(p) && Plain(a) && Under(a, p)
    ensures a !in s && Wh(a) !in s
  {
    hide Plain, BaseStart, Rooted, FiledUnder;
    PlainNoSlash(p);
    WhParts(a);
    UnderParent(a, p);
    UnderParent(Wh(a), p);
    if a in s {
      RootedAbove(s, a, p);
    }
    if Wh(a) in s {
      RootedAbove(s, Wh(a), p);
    }
  }

  // Without (C) the wrong capability stays on the directory.
  lemma NeedsCapOk(t: Tree, s: Files, b: Tree, h: Header, p: string)
    requires TreeOk(t) && TreeOk(b) && NamesOk(s) && Represents(t, s, b)
    requires Plain(p) && DirAt(t, Parent(p)) && !IsWhiteout(h)
    requires p == Target(h) && !CapOk(s, b, h)
    ensures Get(AppliedAt(t, h, p), p) != At(CollectedAt(s, h, p), b, p)
  {
    hide Plain, BaseStart, IsWhiteout, Target, TopLevel, Parent, TreeOk, Wh;
    assert Get(t, p) == At(s, b, p);
  }

  lemma EntryNeeded(t: Tree, s: Files, b: Tree, h: Header, p: string)
    requires TreeOk(t) && TreeOk(b) && NamesOk(s) && Rooted(s) && Represents(t, s, b)
    requires p == Target(h) && Plain(p) && CleanEntry(h) && DirAt(t, Parent(p))
    requires !EntryOk(s, b, h)
    ensures !Represents(AppliedAt(t, h, p), CollectedAt(s, h, p), b)
  {
    hide Plain, BaseStart, CleanEntry, Target, NamesOk, Rooted, TreeOk, At, AppliedAt, CollectedAt, Parent;
    hide WhiteoutOk, FileOk, DirOk, CapOk;
    DirEntry(h);
    if !WhiteoutOk(s, b, h) {
      NeedsWhiteoutOk(t, s, b, h, p);
    } else if !FileOk(s, h) {
      NeedsFileOk(t, s, b, h, p);
    } else if !DirOk(s, b, h) {
      OnlyDirs(s, b, h);
      NeedsDirOk(t, s, b, h, p);
    } else {
      OnlyDirs(s, b, h);
      NeedsCapOk(t, s, b, h, p);
    }
  }

  lemma OnlyDirs(s: Files, b: Tree, h: Header)
    ensures !DirOk(s, b, h) || !CapOk(s, b, h) ==> h.IsDir() && !IsWhiteout(h)
  {}
}
