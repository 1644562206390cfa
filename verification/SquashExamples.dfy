/** Why the conditions of the squashing theorem are there: for each, a family of stacks that break it and no other, over
    which the saved layer and the stack disagree.
  */
module SquashExamples {
  import opened Wrappers
  import opened Names
  import opened FileTree
  import opened Collect
  import opened Meaning
  import opened Sorting
  import opened Squash

  // ---- one condition at a time ----

  /** (L), (S), (W), (F), (D) and (C), in that order. */
  datatype Condition = ParentsListed | DirTimesKept | WhiteoutsAbsent | FilesAboveNothing | DirsFresh | CapsKept

  ghost predicate EntryMeets(c: Condition, s: Files, b: Tree, h: Header) {
    match c
    case WhiteoutsAbsent => WhiteoutOk(s, b, h)
    case FilesAboveNothing => FileOk(s, h) && FileAlone(s, h)
    case DirsFresh => DirOk(s, b, h)
    case CapsKept => CapOk(s, b, h)
    case _ => true
  }

  ghost predicate EntriesMeet(c: Condition, s: Files, b: Tree, layer: seq<Header>) {
    layer == [] ||
    var before := layer[..|layer| - 1];
    EntriesMeet(c, s, b, before) && EntryMeets(c, CollectedAll(s, before), b, layer[|layer| - 1])
  }

  ghost predicate LayerMeets(world: World, c: Condition, s: Files, b: Tree, layer: seq<Header>) {
    match c
    case ParentsListed => Listing(layer)
    case DirTimesKept => Settled(world, CollectedAll(s, layer), b, layer)
    case _ => EntriesMeet(c, s, b, layer)
  }

  ghost predicate StackMeets(world: World, c: Condition, b: Tree, layers: seq<seq<Header>>) {
    layers == [] ||
    var before := layers[..|layers| - 1];
    StackMeets(world, c, b, before) && LayerMeets(world, c, CollectedLayers(before), b, layers[|layers| - 1])
  }

  lemma {:induction false} FoldableMeets(s: Files, b: Tree, layer: seq<Header>)
    ensures Foldable(s, b, layer) <==>
      EntriesMeet(WhiteoutsAbsent, s, b, layer) && EntriesMeet(FilesAboveNothing, s, b, layer) &&
      EntriesMeet(DirsFresh, s, b, layer) && EntriesMeet(CapsKept, s, b, layer)
  {
    hide WhiteoutOk, FileOk, FileAlone, DirOk, CapOk, CollectedAll;
    if layer == [] {
    } else {
      FoldableMeets(s, b, layer[..|layer| - 1]);
    }
  }

  /** The six are the hypotheses of the squashing theorem. */
  lemma {:induction false} StackOkMeets(world: World, b: Tree, layers: seq<seq<Header>>)
    ensures StackOk(world, b, layers) <==>
      && StackMeets(world, ParentsListed, b, layers) && StackMeets(world, DirTimesKept, b, layers)
      && StackMeets(world, WhiteoutsAbsent, b, layers) && StackMeets(world, FilesAboveNothing, b, layers)
      && StackMeets(world, DirsFresh, b, layers) && StackMeets(world, CapsKept, b, layers)
  {
    hide Listing, Settled, Foldable, EntriesMeet, CollectedAll;
    if layers == [] {
    } else {
      var before, top := layers[..|layers| - 1], layers[|layers| - 1];
      StackSnoc(world, b, layers);
      StackOkMeets(world, b, before);
      FoldableMeets(CollectedLayers(before), b, top);
      assert CollectedLayers(layers) == CollectedAll(CollectedLayers(before), top);
    }
  }

  /** The stack meets every condition but c, and the layer saved for it does not do what the stack does. */
  ghost predicate NeedsOnly(world: World, c: Condition, b: Tree, layers: seq<seq<Header>>, saved: seq<Header>) {
    && (forall x :: StackMeets(world, x, b, layers) <==> x != c)
    && IsSaved(saved, CollectedLayers(layers))
    && AfterLayer(world, b, saved) != AfterLayers(world, b, layers)
  }

  // ---- small stacks ----

  function Add(p: string, n: Node): Header
    requires p != ""
  {
    Addition(p, n, 0)
  }

  // A layer of one entry.
  lemma OneEntry(world: World, t: Tree, s: Files, h: Header)
    requires TreeOk(t) && NamesOk(s) && CleanEntry(h) && DirAt(t, Parent(Target(h)))
    ensures AfterLayer(world, t, [h]) == Outcome(true, AppliedAt(t, h, Target(h)))
    ensures CollectedAll(s, [h]) == CollectedAt(s, h, Target(h))
  {
    hide Plain, BaseStart, CleanEntry, Target, IsWhiteout, Landed, Collected, NamesOk, TreeOk, AfterEntry;
    hide CleanName, IsDirEntry;
    var p := Target(h);
    assert [h][..0] == [];
    AppliedClean(t, h);
    CollectedClean(s, h);
    DirEntry(h);
    assert AfterEntries(t, []) == Outcome(true, t);
    var t' := AppliedAt(t, h, p);
    assert AfterEntries(t, [h]) == AfterEntry(t, h);
    assert CollectedAll(s, []) == s;
    if h.IsDir() {
      assert DirsOf([h]) == [h];
      LandedTimes(h.node, Get(t, p));
      LandedTimes(h.node, None);
      assert StampAll(world, t', []) == Outcome(true, t');
      assert StampAll(world, t', [h]) == Outcome(true, t'[p := t'[p].WithTimes(h.node)]);
    } else {
      assert DirsOf([h]) == [];
    }
  }

  lemma TwoLayers(world: World, b: Tree, h: Header, k: Header, t: Tree, s: Files)
    requires TreeOk(b) && CleanEntry(h) && CleanEntry(k)
    requires DirAt(b, Parent(Target(h))) && AppliedAt(b, h, Target(h)) == t && CollectedAt(map[], h, Target(h)) == s
    requires DirAt(t, Parent(Target(k)))
    ensures AfterLayers(world, b, [[h], [k]]) == Outcome(true, AppliedAt(t, k, Target(k)))
    ensures CollectedLayers([[h], [k]]) == CollectedAt(s, k, Target(k))
    ensures NamesOk(s) && TreeOk(t)
  {
    hide Plain, BaseStart, CleanEntry, Target, CollectedAt, AppliedAt, NamesOk, TreeOk, CollectedAll, AfterLayer;
    var layers: seq<seq<Header>> := [[h], [k]];
    assert layers[..1] == [[h]];
    assert AfterLayers(world, b, []) == Outcome(true, b) && CollectedLayers([]) == map[];
    NothingCollected(b);
    CleanTarget(h);
    OneEntry(world, b, map[], h);
    AppliedTreeOk(b, h, Target(h));
    NamesPreserved(map[], h);
    CollectedClean(map[], h);
    assert AfterLayers(world, b, layers[..1]) == AfterLayer(world, b, [h]);
    assert CollectedLayers(layers[..1]) == CollectedAll(map[], [h]);
    OneEntry(world, t, s, k);
  }

  lemma SavedOne(k: string, h: Header)
    ensures IsSaved([h], map[k := h])
  {
    assert IsListingOf([h], [k], map[k := h]);
  }

  lemma SavedNone()
    ensures IsSaved([], map[])
  {
    assert IsListingOf([], [], map[]);
  }

  // ---- which conditions a small stack meets ----

  lemma TwoLayersMeet(world: World, c: Condition, b: Tree, l1: seq<Header>, l2: seq<Header>)
    ensures StackMeets(world, c, b, [l1, l2]) <==>
      LayerMeets(world, c, map[], b, l1) && LayerMeets(world, c, CollectedAll(map[], l1), b, l2)
  {
    hide LayerMeets, CollectedAll;
    var layers: seq<seq<Header>> := [l1, l2];
    assert layers[..1] == [l1] && layers[..1][..0] == [];
    assert CollectedLayers([]) == map[] && StackMeets(world, c, b, []);
    assert CollectedLayers(layers[..1]) == CollectedAll(map[], l1);
    assert StackMeets(world, c, b, layers[..1]) <==> LayerMeets(world, c, map[], b, l1);
  }

  lemma ThreeLayersMeet(world: World, c: Condition, b: Tree, l1: seq<Header>, l2: seq<Header>, l3: seq<Header>)
    ensures StackMeets(world, c, b, [l1, l2, l3]) <==>
      StackMeets(world, c, b, [l1, l2]) && LayerMeets(world, c, CollectedAll(CollectedAll(map[], l1), l2), b, l3)
    ensures CollectedLayers([l1, l2]) == CollectedAll(CollectedAll(map[], l1), l2)
    ensures CollectedLayers([l1, l2, l3]) == CollectedAll(CollectedAll(CollectedAll(map[], l1), l2), l3)
  {
    hide LayerMeets, CollectedAll;
    var layers: seq<seq<Header>> := [l1, l2, l3];
    assert layers[..2] == [l1, l2] && layers[..2][..1] == [l1] && layers[..2][..1][..0] == [];
    assert CollectedLayers([]) == map[];
    assert CollectedLayers(layers[..2][..1]) == CollectedAll(map[], l1);
    assert CollectedLayers(layers[..2]) == CollectedAll(CollectedAll(map[], l1), l2);
  }

  lemma OneEntryMeets(world: World, c: Condition, s: Files, b: Tree, h: Header)
    requires NamesOk(s) && CleanEntry(h)
    ensures LayerMeets(world, c, s, b, [h]) <==>
      if c.ParentsListed? then Parent(Target(h)) == "" else EntryMeets(c, s, b, h)
  {
    hide NamesOk, CleanEntry, Target, Parent, WhiteoutOk, FileOk, FileAlone, DirOk, CapOk, Settled;
    assert [h][..0] == [];
    match c
    case ParentsListed => OneListing(h);
    case DirTimesKept => OneSettled(world, s, b, h);
    case _ =>
      assert CollectedAll(s, []) == s;
      assert EntriesMeet(c, s, b, []);
  }

  lemma OneListing(h: Header)
    requires CleanEntry(h)
    ensures Listing([h]) <==> Parent(Target(h)) == ""
  {
    hide CleanEntry, Target, Parent;
    assert [h][..0] == [] && Listed([]) == {};
    assert InOrder([h], 0) <==> Parent(Target(h)) == "";
  }

  lemma OneSettled(world: World, s: Files, b: Tree, h: Header)
    requires NamesOk(s) && CleanEntry(h)
    ensures Settled(world, CollectedAll(s, [h]), b, [h])
  {
    hide NamesOk, CleanEntry, Target, Collected, Landed, Hidden, IsDirEntry, CleanName, Wh, IsWhiteout, Plain, Leads;
    hide ShowsTimes;
    var s', p := CollectedAll(s, [h]), Target(h);
    OneCollected(s, h);
    CollectedClean(s, h);
    DirEntry(h);
    assert [h][..0] == [];
    if h.IsDir() {
      assert DirsOf([h]) == [h];
      LandedTimes(h.node, Get(b, p));
      assert At(s', b, p) == Some(Landed(h.node, Get(b, p)));
      assert p in Made(s', b) && Made(s', b)[p] == Landed(h.node, Get(b, p));
      OneTime(world, Made(s', b), h, p);
    } else {
      assert DirsOf([h]) == [];
      NoTimes(world, Made(s', b));
    }
  }

  lemma NoTimes(world: World, t: Tree)
    ensures ShowsTimes(world, t, [])
  {}

  // One entry, where no link stands.
  lemma OneTime(world: World, t: Tree, h: Header, p: string)
    requires CleanName(h.name) == p && p in t && !t[p].kind.Symlink?
    ensures ShowsTimes(world, t, [h]) <==> t[p] == t[p].WithTimes(h.node)
  {
    hide CleanName, Leads;
    LeadsDirectly(world, t, p);
    assert [h][..0] == [];
    assert LastAt(world, t, [], p) == None;
    assert LastAt(world, t, [h], p) == Some(h);
    assert forall q :: q != p ==> LastAt(world, t, [h], q) == LastAt(world, t, [], q) == None;
  }

  lemma TwoEntriesMeet(world: World, c: Condition, s: Files, b: Tree, h: Header, k: Header)
    requires CleanEntry(h) && CleanEntry(k) && h.IsDir() && !k.IsDir() && !c.DirTimesKept?
    ensures LayerMeets(world, c, s, b, [h, k]) <==>
      if c.ParentsListed? then Parent(Target(h)) == "" && (Parent(Target(k)) == "" || Parent(Target(k)) == Target(h))
      else EntryMeets(c, s, b, h) && EntryMeets(c, Collected(s, h), b, k)
  {
    hide CleanEntry, Target, Parent, WhiteoutOk, FileOk, FileAlone, DirOk, CapOk, Collected;
    var layer := [h, k];
    assert layer[..1] == [h] && layer[..1][..0] == [] && layer[..0] == [];
    assert CollectedAll(s, []) == s && CollectedAll(s, layer[..1]) == Collected(s, h);
    if c.ParentsListed? {
      assert Listed(layer[..1]) == {Target(h)};
      assert Listing(layer) <==> InOrder(layer, 0) && InOrder(layer, 1);
    } else {
      assert EntriesMeet(c, s, b, []);
      assert EntriesMeet(c, s, b, layer[..1]) <==> EntryMeets(c, s, b, h);
    }
  }

  // Whether two entries, a directory and something else, are settled shows at the directory.
  lemma TwoSettled(world: World, s: Files, b: Tree, h: Header, k: Header, n: Node)
    requires CleanEntry(h) && CleanEntry(k) && h.IsDir() && !k.IsDir()
    requires At(s, b, Target(h)) == Some(n) && !n.kind.Symlink? && (Target(h) in s || Target(h) in b)
    ensures Settled(world, s, b, [h, k]) <==> n == n.WithTimes(h.node)
  {
    hide CleanEntry, Target, At, IsDirEntry, CleanName, DirsOf, ShowsTimes, Plain;
    hide AfterEntries, AfterEntry, CollectedAll, Collected;
    DirEntry(h);
    DirEntry(k);
    TwoEntries(map[], map[], h, k);
    assert DirsOf([h, k]) == [h];
    assert Target(h) in Made(s, b) && Made(s, b)[Target(h)] == n;
    OneTime(world, Made(s, b), h, Target(h));
  }

  // Nothing has been collected yet.
  lemma FirstMeets(c: Condition, b: Tree, h: Header)
    ensures EntryMeets(c, map[], b, h)
  {}

  // The conditions a stack of two layers of one entry meets are those of its second entry.
  lemma SecondEntry(world: World, b: Tree, h: Header, k: Header, s: Files)
    requires CleanEntry(h) && CleanEntry(k) && Parent(Target(h)) == ""
    requires s == CollectedAt(map[], h, Target(h)) && NamesOk(s)
    ensures forall c :: StackMeets(world, c, b, [[h], [k]]) <==>
      if c.ParentsListed? then Parent(Target(k)) == "" else EntryMeets(c, s, b, k)
  {
    hide NamesOk, CleanEntry, Target, Parent, EntryMeets, Collected, CollectedAt, LayerMeets, StackMeets, CollectedAll;
    NothingCollected(b);
    OneCollected(map[], h);
    CollectedClean(map[], h);
    forall c
      ensures StackMeets(world, c, b, [[h], [k]]) <==>
        if c.ParentsListed? then Parent(Target(k)) == "" else EntryMeets(c, s, b, k)
    {
      TwoLayersMeet(world, c, b, [h], [k]);
      OneEntryMeets(world, c, map[], b, h);
      FirstMeets(c, b, h);
      OneEntryMeets(world, c, s, b, k);
    }
  }

  /** Without (W): a file of the base that a layer overwrites and the next removes comes back. */
  lemma WhiteoutLost(world: World, p: string, was: Node, n: Node)
    requires Plain(p) && TopLevel(p) && !was.IsDir() && !n.IsDir()
    ensures var b := map[p := was];
      var layers := [[Add(p, n)], [Whiteout(p)]];
      && AfterLayers(world, b, layers) == Outcome(true, map[])
      && AfterLayer(world, b, []) == Outcome(true, b)
      && NeedsOnly(world, WhiteoutsAbsent, b, layers, [])
  {
    hide EntryMeets, StackMeets;
    hide Plain, BaseStart, CleanEntry, Target, IsWhiteout, Landed, Collected, AfterLayers, CollectedLayers, Wh;
    var b := map[p := was];
    AdditionClean(p, n, 0);
    WhiteoutClean(p);
    TopLevelParent(p);
    var t := map[p := Landed(n, None)];
    assert AppliedAt(b, Add(p, n), p) == t;
    assert CollectedAt(map[], Add(p, n), p) == map[p := Add(p, n)];
    TwoLayers(world, b, Add(p, n), Whiteout(p), t, map[p := Add(p, n)]);
    assert AppliedAt(t, Whiteout(p), p) == map[];
    assert CollectedAt(map[p := Add(p, n)], Whiteout(p), p) == map[];
    SavedNone();
    SecondEntry(world, b, Add(p, n), Whiteout(p), map[p := Add(p, n)]);
    WhiteoutLostMeets(p, was, n);
    assert p in b;
  }

  lemma WhiteoutLostMeets(p: string, was: Node, n: Node)
    requires Plain(p) && p != ""
    ensures forall c :: EntryMeets(c, map[p := Add(p, n)], map[p := was], Whiteout(p)) <==> c != WhiteoutsAbsent
  {
    hide Plain, BaseStart, CleanEntry, Target, IsWhiteout, Wh;
    WhiteoutClean(p);
  }

  /** Without (D): what was in a directory of the base that a layer removes and the next makes again comes back. */
  lemma DirectoryRefilled(world: World, p: string, q: string, was: Node, x: Node, n: Node)
    requires Plain(p) && TopLevel(p) && Plain(q) && Parent(q) == p && was.IsDir() && n.IsDir() && was.cap == ""
    ensures var b := map[p := was, q := x];
      var layers := [[Whiteout(p)], [Add(p, n)]];
      && AfterLayers(world, b, layers) == Outcome(true, map[p := Landed(n, None)])
      && AfterLayer(world, b, [Add(p, n)]) == Outcome(true, map[p := Landed(n, None), q := x])
      && NeedsOnly(world, DirsFresh, b, layers, [Add(p, n)])
  {
    hide Plain, BaseStart, CleanEntry, Target, IsWhiteout, Collected, AfterLayers, CollectedLayers, Wh, Under, Parent;
    hide EntryMeets, StackMeets, AfterLayer, NamesOk, TreeOk, IsSaved, Landed;
    var b: Tree, s: Files := map[p := was, q := x], map[Wh(p) := Whiteout(p)];
    AdditionClean(p, n, 0);
    WhiteoutClean(p);
    TopLevelParent(p);
    WhNotPlain(p);
    RefilledFirst(p, q, was, x);
    TwoLayers(world, b, Whiteout(p), Add(p, n), map[], s);
    assert AppliedAt(map[], Add(p, n), p) == map[p := Landed(n, None)];
    assert CollectedAt(s, Add(p, n), p) == map[p := Add(p, n)];
    SavedOne(p, Add(p, n));
    NothingCollected(b);
    OneEntry(world, b, map[], Add(p, n));
    ParentDiffers(q);
    MergedNoCap(was, n);
    assert AppliedAt(b, Add(p, n), p) == map[p := Landed(n, None), q := x];
    SecondEntry(world, b, Whiteout(p), Add(p, n), s);
    DirectoryRefilledMeets(p, q, was, x, n);
    assert q in AfterLayer(world, b, [Add(p, n)]).tree;
  }

  lemma MergedNoCap(was: Node, n: Node)
    requires was.cap == ""
    ensures Landed(n, Some(was)) == Landed(n, None)
  {}

  // The whiteout takes the directory and what is in it away.
  lemma RefilledFirst(p: string, q: string, was: Node, x: Node)
    requires Plain(p) && TopLevel(p) && Plain(q) && Parent(q) == p && was.IsDir()
    ensures TreeOk(map[p := was, q := x])
    ensures AppliedAt(map[p := was, q := x], Whiteout(p), p) == map[]
    ensures CollectedAt(map[], Whiteout(p), p) == map[Wh(p) := Whiteout(p)]
  {
    hide Plain, BaseStart, Target, IsWhiteout, Wh, Under;
    WhiteoutClean(p);
    PlainNoSlash(p);
    TopLevelParent(p);
    TopLevelParent(q);
    UnderParent(q, p);
  }

  lemma DirectoryRefilledMeets(p: string, q: string, was: Node, x: Node, n: Node)
    requires Plain(p) && TopLevel(p) && p != "" && Plain(q) && Parent(q) == p && was.IsDir() && n.IsDir() &&
      was.cap == ""
    ensures forall c :: EntryMeets(c, map[Wh(p) := Whiteout(p)], map[p := was, q := x], Add(p, n)) <==> c != DirsFresh
  {
    hide Plain, BaseStart, CleanEntry, Target, IsWhiteout, Wh, Under;
    AdditionClean(p, n, 0);
    WhNotPlain(p);
    ParentDiffers(q);
    TopLevelParent(q);
    UnderParent(q, p);
    assert q in map[p := was, q := x];
  }

  /** Without (C): a directory loses the capability a lower layer gave it. */
  lemma CapabilityLost(world: World, p: string, c: Node, n: Node)
    requires Plain(p) && TopLevel(p) && c.IsDir() && n.IsDir() && c.cap != "" && n.cap == ""
    ensures var layers := [[Add(p, c)], [Add(p, n)]];
      && AfterLayers(world, map[], layers) == Outcome(true, map[p := n.(cap := c.cap)])
      && AfterLayer(world, map[], [Add(p, n)]) == Outcome(true, map[p := n])
      && NeedsOnly(world, CapsKept, map[], layers, [Add(p, n)])
  {
    hide EntryMeets, StackMeets;
    hide Plain, BaseStart, CleanEntry, Target, IsWhiteout, Collected, AfterLayers, CollectedLayers, Wh, Under;
    AdditionClean(p, n, 0);
    AdditionClean(p, c, 0);
    TopLevelParent(p);
    WhNotPlain(p);
    assert AppliedAt(map[], Add(p, c), p) == map[p := c];
    assert CollectedAt(map[], Add(p, c), p) == map[p := Add(p, c)];
    TwoLayers(world, map[], Add(p, c), Add(p, n), map[p := c], map[p := Add(p, c)]);
    assert CollectedAt(map[p := Add(p, c)], Add(p, n), p) == map[p := Add(p, n)];
    SavedOne(p, Add(p, n));
    NothingCollected(map[]);
    OneEntry(world, map[], map[], Add(p, n));
    SecondEntry(world, map[], Add(p, c), Add(p, n), map[p := Add(p, c)]);
    CapabilityLostMeets(p, c, n);
    assert map[p := n][p] != map[p := n.(cap := c.cap)][p];
  }

  lemma CapabilityLostMeets(p: string, c: Node, n: Node)
    requires Plain(p) && p != "" && c.IsDir() && n.IsDir() && c.cap != "" && n.cap == ""
    ensures forall x :: EntryMeets(x, map[p := Add(p, c)], map[], Add(p, n)) <==> x != CapsKept
  {
    hide Plain, BaseStart, CleanEntry, Target, IsWhiteout, Wh, Under;
    AdditionClean(p, n, 0);
    WhNotPlain(p);
  }

  lemma TwoEntries(t: Tree, s: Files, h: Header, k: Header)
    ensures AfterEntries(t, [h, k]) ==
      if AfterEntry(t, h).ok then AfterEntry(AfterEntry(t, h).tree, k) else AfterEntry(t, h)
    ensures CollectedAll(s, [h, k]) == Collected(Collected(s, h), k)
    ensures DirsOf([h, k]) == (if IsDirEntry(h) then [h] else []) + (if IsDirEntry(k) then [k] else [])
  {
    hide AfterEntry, Collected, IsDirEntry;
    var layer: seq<Header> := [h, k];
    assert layer[..1] == [h] && layer[..1][..0] == [];
    assert AfterEntries(t, layer[..1]) == AfterEntry(t, h);
    assert CollectedAll(s, layer[..1]) == Collected(s, h);
    assert DirsOf(layer[..1]) == if IsDirEntry(h) then [h] else [];
  }

  lemma StampOne(world: World, t: Tree, h: Header, p: string)
    requires CleanName(h.name) == p && p in t && !t[p].kind.Symlink?
    ensures StampAll(world, t, [h]) == Outcome(true, t[p := t[p].WithTimes(h.node)])
  {
    hide CleanName, Leads;
    LeadsDirectly(world, t, p);
    assert [h][..0] == [];
    assert StampAll(world, t, []) == Outcome(true, t);
  }

  lemma SavedTwo(k: string, h: Header, l: string, j: Header)
    requires Less(k, l)
    ensures IsSaved([h, j], map[k := h, l := j])
  {
    LessIrreflexive(k);
    assert IsListingOf([h, j], [k, l], map[k := h, l := j]);
  }

  /** Without (F): a file that replaces a collected directory leaves the directory's entries collected, and the saved
      layer cannot be applied. */
  lemma FileOverDirectory(world: World, p: string, q: string, d: Node, x: Node, n: Node)
    requires Plain(p) && TopLevel(p) && Plain(q) && Parent(q) == p && d.IsDir() && !x.IsDir() && !n.IsDir()
    ensures var layers := [[Add(p, d), Add(q, x)], [Add(p, n)]];
      && AfterLayers(world, map[], layers) == Outcome(true, map[p := Landed(n, None)])
      && !AfterLayer(world, map[], [Add(p, n), Add(q, x)]).ok
      && NeedsOnly(world, FilesAboveNothing, map[], layers, [Add(p, n), Add(q, x)])
  {
    hide EntryMeets, StackMeets, LayerMeets, Parent;
    hide Plain, BaseStart, CleanEntry, Target, IsWhiteout, Collected, CollectedAll, Wh, Under, Less, IsSaved;
    hide AfterEntry, AfterEntries, StampAll, DirsOf, IsDirEntry, CleanName, TreeOk, NamesOk, Landed, AfterLayer;
    AdditionClean(p, d, 0);
    AdditionClean(q, x, 0);
    AdditionClean(p, n, 0);
    TopLevelParent(p);
    TopLevelParent(q);
    var hd, hx, hn := Add(p, d), Add(q, x), Add(p, n);
    var layers: seq<seq<Header>> := [[hd, hx], [hn]];
    ParentDiffers(q);
    var t: Tree, s: Files := map[p := Landed(d, None), q := Landed(x, None)], map[p := hd, q := hx];
    DirectoryAndFile(world, p, q, d, x);
    ResultsOne(world, map[], layers);
    FileLands(world, p, q, d, x, n, t, s);
    PrefixLess(p, q);
    SavedTwo(p, hn, q, hx);
    FileThenChild(world, p, q, n, x);
    forall c
      ensures StackMeets(world, c, map[], layers) <==> c != FilesAboveNothing
    {
      TwoLayersMeet(world, c, map[], [hd, hx], [hn]);
      DirectoryAndFileMeet(world, c, p, q, d, x);
      OneEntryMeets(world, c, s, map[], hn);
      FileLandsMeets(c, p, q, d, x, n);
    }
  }

  // A directory and a file in it, as the first layer of all, meet every condition.
  lemma DirectoryAndFileMeet(world: World, c: Condition, p: string, q: string, d: Node, x: Node)
    requires Plain(p) && TopLevel(p) && Plain(q) && Parent(q) == p && d.IsDir() && !x.IsDir() && p != "" && q != ""
    ensures LayerMeets(world, c, map[], map[], [Add(p, d), Add(q, x)])
  {
    hide Plain, BaseStart, CleanEntry, Target, IsWhiteout, Collected, Wh, Under, Landed, LayerMeets, EntryMeets, Parent;
    hide EntriesMeet, CollectedAll, Settled;
    var hd, hx := Add(p, d), Add(q, x);
    AdditionClean(p, d, 0);
    AdditionClean(q, x, 0);
    TopLevelParent(p);
    if c.DirTimesKept? {
      DirectoryAndFile(world, p, q, d, x);
      var s: Files := map[p := hd, q := hx];
      LandedTimes(d, None);
      assert At(s, map[], p) == Some(Landed(d, None));
      TwoSettled(world, s, map[], hd, hx, Landed(d, None));
      assert LayerMeets(world, DirTimesKept, map[], map[], [hd, hx]) <==> Settled(world, s, map[], [hd, hx]) by {
        SettledMeets(world, map[], map[], [hd, hx]);
      }
    } else {
      TwoEntriesMeet(world, c, map[], map[], hd, hx);
      FirstMeets(c, map[], hd);
      DirectoryThenFileCollected(p, q, d, x);
      AfterDirectory(c, p, q, d, x);
    }
  }

  lemma SettledMeets(world: World, s: Files, b: Tree, layer: seq<Header>)
    ensures LayerMeets(world, DirTimesKept, s, b, layer) <==> Settled(world, CollectedAll(s, layer), b, layer)
  {}

  lemma AfterDirectory(c: Condition, p: string, q: string, d: Node, x: Node)
    requires Plain(p) && TopLevel(p) && Plain(q) && Parent(q) == p && d.IsDir() && !x.IsDir() && p != "" && q != ""
    ensures EntryMeets(c, Collected(map[], Add(p, d)), map[], Add(q, x))
  {
    hide Plain, BaseStart, CleanEntry, Target, IsWhiteout, Collected, Wh, Under, NamesOk;
    AdditionClean(p, d, 0);
    AdditionClean(q, x, 0);
    NothingCollected(map[]);
    CollectedClean(map[], Add(p, d));
    assert CollectedAt(map[], Add(p, d), p) == map[p := Add(p, d)];
    ParentNotUnder(q);
  }

  lemma FileLandsMeets(c: Condition, p: string, q: string, d: Node, x: Node, n: Node)
    requires Plain(p) && TopLevel(p) && Plain(q) && Parent(q) == p && d.IsDir() && !x.IsDir() && !n.IsDir()
    requires p != "" && q != ""
    ensures EntryMeets(c, map[p := Add(p, d), q := Add(q, x)], map[], Add(p, n)) <==> c != FilesAboveNothing
  {
    hide Plain, BaseStart, CleanEntry, Target, IsWhiteout, Wh, Under;
    AdditionClean(p, n, 0);
    ParentDiffers(q);
    TopLevelParent(q);
    UnderParent(q, p);
    assert q in map[p := Add(p, d), q := Add(q, x)];
  }

  lemma FileLands(world: World, p: string, q: string, d: Node, x: Node, n: Node, t: Tree, s: Files)
    requires Plain(p) && TopLevel(p) && Plain(q) && Parent(q) == p && d.IsDir() && !x.IsDir() && !n.IsDir()
    requires p != "" && q != "" && t == map[p := Landed(d, None), q := Landed(x, None)]
    requires s == map[p := Add(p, d), q := Add(q, x)] && TreeOk(t) && NamesOk(s)
    ensures AfterLayer(world, t, [Add(p, n)]) == Outcome(true, map[p := Landed(n, None)])
    ensures CollectedAll(s, [Add(p, n)]) == map[p := Add(p, n), q := Add(q, x)]
  {
    hide Plain, BaseStart, CleanEntry, Target, IsWhiteout, Wh, Under, TreeOk, NamesOk, Landed, AfterLayer, CollectedAll;
    var hn := Add(p, n);
    AdditionClean(p, n, 0);
    TopLevelParent(p);
    TopLevelParent(q);
    ParentDiffers(q);
    OneEntry(world, t, s, hn);
    LandedTimes(d, None);
    UnderParent(q, p);
    WhNotPlain(p);
    assert AppliedAt(t, hn, p) == map[p := Landed(n, None)];
    assert CollectedAt(s, hn, p) == map[p := hn, q := Add(q, x)];
  }

  lemma ParentDiffers(q: string)
    requires Plain(q)
    ensures q != Parent(q) && q != "" && HasPrefix(q, Parent(q))
  {}

  lemma DirectoryAndFile(world: World, p: string, q: string, d: Node, x: Node)
    requires Plain(p) && TopLevel(p) && Plain(q) && Parent(q) == p && d.IsDir() && !x.IsDir()
    ensures p != "" && q != ""
    ensures var t := map[p := Landed(d, None), q := Landed(x, None)];
      var s := map[p := Add(p, d), q := Add(q, x)];
      AfterLayer(world, map[], [Add(p, d), Add(q, x)]) == Outcome(true, t) &&
      CollectedAll(map[], [Add(p, d), Add(q, x)]) == s && TreeOk(t) && NamesOk(s)
  {
    hide Plain, BaseStart, CleanEntry, Target, IsWhiteout, Collected, Wh, Under, AfterEntry, IsDirEntry, CleanName;
    hide AppliedAt, CollectedAt, TreeOk, NamesOk, Landed;
    AdditionClean(p, d, 0);
    AdditionClean(q, x, 0);
    var hd, hx := Add(p, d), Add(q, x);
    ParentDiffers(q);
    TwoEntries(map[], map[], hd, hx);
    DirectoryThenFileApplied(p, q, d, x);
    DirectoryThenFileCollected(p, q, d, x);
    DirEntry(hd);
    DirEntry(hx);
    LandedTimes(d, None);
    var t: Tree := map[p := Landed(d, None), q := Landed(x, None)];
    StampOne(world, t, hd, p);
    assert t[p := t[p].WithTimes(d)] == t;
  }

  lemma DirectoryThenFileApplied(p: string, q: string, d: Node, x: Node)
    requires Plain(p) && TopLevel(p) && Plain(q) && Parent(q) == p && d.IsDir() && !x.IsDir() && p != "" && q != ""
    ensures AfterEntry(map[], Add(p, d)).ok
    ensures AfterEntry(AfterEntry(map[], Add(p, d)).tree, Add(q, x)) ==
      Outcome(true, map[p := Landed(d, None), q := Landed(x, None)])
    ensures TreeOk(map[p := Landed(d, None), q := Landed(x, None)])
  {
    hide Plain, BaseStart, CleanEntry, Target, IsWhiteout, Under, AfterEntry, Landed;
    var hd, hx := Add(p, d), Add(q, x);
    AdditionClean(p, d, 0);
    AdditionClean(q, x, 0);
    TopLevelParent(p);
    AppliedClean(map[], hd);
    AppliedTreeOk(map[], hd, p);
    var t1: Tree := map[p := Landed(d, None)];
    assert AppliedAt(map[], hd, p) == t1;
    LandedTimes(d, None);
    ParentDiffers(q);
    AppliedClean(t1, hx);
    AppliedTreeOk(t1, hx, q);
    assert AppliedAt(t1, hx, q) == map[p := Landed(d, None), q := Landed(x, None)];
  }

  lemma DirectoryThenFileCollected(p: string, q: string, d: Node, x: Node)
    requires Plain(p) && Plain(q) && Parent(q) == p && d.IsDir() && !x.IsDir() && p != "" && q != ""
    ensures Collected(Collected(map[], Add(p, d)), Add(q, x)) == map[p := Add(p, d), q := Add(q, x)]
    ensures NamesOk(map[p := Add(p, d), q := Add(q, x)])
  {
    hide Plain, BaseStart, CleanEntry, Target, IsWhiteout, Collected, Wh, Under, NamesOk;
    var hd, hx := Add(p, d), Add(q, x);
    AdditionClean(p, d, 0);
    AdditionClean(q, x, 0);
    NothingCollected(map[]);
    CollectedClean(map[], hd);
    NamesPreserved(map[], hd);
    var s1: Files := map[p := hd];
    assert CollectedAt(map[], hd, p) == s1;
    ParentDiffers(q);
    CollectedClean(s1, hx);
    NamesPreserved(s1, hx);
    WhNotPlain(q);
    assert CollectedAt(s1, hx, q) == map[p := hd, q := hx];
  }

  lemma FileThenChild(world: World, p: string, q: string, n: Node, x: Node)
    requires Plain(p) && TopLevel(p) && Plain(q) && Parent(q) == p && !n.IsDir() && !x.IsDir()
    ensures p != "" && q != "" && !AfterLayer(world, map[], [Add(p, n), Add(q, x)]).ok
  {
    hide Plain, BaseStart, CleanEntry, Target, IsWhiteout, Collected, Wh, Under, Landed;
    AdditionClean(p, n, 0);
    AdditionClean(q, x, 0);
    var hn, hx := Add(p, n), Add(q, x);
    TopLevelParent(p);
    TwoEntries(map[], map[], hn, hx);
    AppliedClean(map[], hn);
    CleanEntryParts(hx);
    LandedTimes(n, None);
    ParentDiffers(q);
  }

  /** Without (S): a directory replaced in the same layer by a file with other times leaves its times on the file. */
  lemma TimesOnFile(world: World, p: string, d: Node, n: Node)
    requires Plain(p) && TopLevel(p) && d.IsDir() && n.kind.Regular? && (d.sec != n.sec || d.nsec != n.nsec)
    ensures AfterLayers(world, map[], [[Add(p, d), Add(p, n)]]) == Outcome(true, map[p := Landed(n, None).WithTimes(d)])
    ensures AfterLayer(world, map[], [Add(p, n)]) == Outcome(true, map[p := Landed(n, None)])
    ensures NeedsOnly(world, DirTimesKept, map[], [[Add(p, d), Add(p, n)]], [Add(p, n)])
  {
    hide EntryMeets, LayerMeets;
    hide Plain, BaseStart, CleanEntry, Target, IsWhiteout, Collected, Wh, Under, AfterEntry, IsDirEntry, CleanName;
    hide Addition, Landed, IsSaved, NamesOk, DirsOf, AfterEntries, CollectedAll;
    AdditionClean(p, d, 0);
    AdditionClean(p, n, 0);
    var hd, hn := Add(p, d), Add(p, n);
    var layers: seq<seq<Header>> := [[hd, hn]];
    assert layers[..0] == [];
    TopLevelParent(p);
    NothingCollected(map[]);
    DirThenFile(world, p, d, n);
    assert AfterLayers(world, map[], layers) == AfterLayer(world, map[], [hd, hn]);
    assert CollectedLayers(layers) == map[p := hn];
    SavedOne(p, hn);
    OneEntry(world, map[], map[], hn);
    TimesDiffer(d, n);
    assert map[p := Landed(n, None)][p] != map[p := Landed(n, None).WithTimes(d)][p];
    forall c
      ensures StackMeets(world, c, map[], layers) <==> c != DirTimesKept
    {
      assert StackMeets(world, c, map[], layers[..0]);
      assert StackMeets(world, c, map[], layers) <==> LayerMeets(world, c, map[], map[], [hd, hn]);
      DirThenFileMeets(world, c, p, d, n);
    }
  }

  lemma TimesDiffer(d: Node, n: Node)
    requires d.sec != n.sec || d.nsec != n.nsec
    ensures Landed(n, None) != Landed(n, None).WithTimes(d)
  {}

  lemma DirThenFileMeets(world: World, c: Condition, p: string, d: Node, n: Node)
    requires Plain(p) && TopLevel(p) && p != "" && d.IsDir() && n.kind.Regular? && (d.sec != n.sec || d.nsec != n.nsec)
    ensures LayerMeets(world, c, map[], map[], [Add(p, d), Add(p, n)]) <==> c != DirTimesKept
  {
    hide Plain, BaseStart, CleanEntry, Target, IsWhiteout, Collected, Wh, Under, Landed, LayerMeets, EntryMeets, Parent;
    hide EntriesMeet, CollectedAll, Settled;
    var hd, hn := Add(p, d), Add(p, n);
    AdditionClean(p, d, 0);
    AdditionClean(p, n, 0);
    TopLevelParent(p);
    if c.DirTimesKept? {
      DirThenFile(world, p, d, n);
      TimesDiffer(d, n);
      LandedTimes(n, None);
      LandedKind(n);
      assert At(map[p := hn], map[], p) == Some(Landed(n, None));
      TwoSettled(world, map[p := hn], map[], hd, hn, Landed(n, None));
      SettledMeets(world, map[], map[], [hd, hn]);
    } else {
      TwoEntriesMeet(world, c, map[], map[], hd, hn);
      FirstMeets(c, map[], hd);
      OverDirectory(c, p, d, n);
    }
  }

  lemma OverDirectory(c: Condition, p: string, d: Node, n: Node)
    requires Plain(p) && p != "" && d.IsDir() && !n.IsDir()
    ensures EntryMeets(c, Collected(map[], Add(p, d)), map[], Add(p, n))
  {
    hide Plain, BaseStart, CleanEntry, Target, IsWhiteout, Collected, Wh, NamesOk;
    AdditionClean(p, d, 0);
    AdditionClean(p, n, 0);
    NothingCollected(map[]);
    CollectedClean(map[], Add(p, d));
    assert CollectedAt(map[], Add(p, d), p) == map[p := Add(p, d)];
  }

  lemma DirThenFile(world: World, p: string, d: Node, n: Node)
    requires Plain(p) && TopLevel(p) && d.IsDir() && n.kind.Regular?
    ensures p != ""
    ensures AfterLayer(world, map[], [Add(p, d), Add(p, n)]) == Outcome(true, map[p := Landed(n, None).WithTimes(d)])
    ensures CollectedAll(map[], [Add(p, d), Add(p, n)]) == map[p := Add(p, n)]
  {
    hide Plain, BaseStart, CleanEntry, Target, IsWhiteout, Collected, Wh, Under, AfterEntry, IsDirEntry, CleanName;
    hide Addition, Landed, NamesOk, DirsOf, AfterEntries, CollectedAll, StampAll;
    AdditionClean(p, d, 0);
    AdditionClean(p, n, 0);
    DirThenOther(p, d, n);
    LandedKind(n);
    DirEntry(Add(p, d));
    StampOne(world, map[p := Landed(n, None)], Add(p, d), p);
  }

  // A directory and then something else at the same path.
  lemma DirThenOther(p: string, d: Node, n: Node)
    requires Plain(p) && TopLevel(p) && d.IsDir() && !n.IsDir()
    ensures p != ""
    ensures AfterEntries(map[], [Add(p, d), Add(p, n)]) == Outcome(true, map[p := Landed(n, None)])
    ensures DirsOf([Add(p, d), Add(p, n)]) == [Add(p, d)]
    ensures CollectedAll(map[], [Add(p, d), Add(p, n)]) == map[p := Add(p, n)]
  {
    hide Plain, BaseStart, CleanEntry, Target, IsWhiteout, Collected, Wh, Under, AfterEntry, IsDirEntry, CleanName;
    hide Addition, Landed, NamesOk, DirsOf, AfterEntries, CollectedAll;
    AdditionClean(p, d, 0);
    AdditionClean(p, n, 0);
    var hd, hn := Add(p, d), Add(p, n);
    TopLevelParent(p);
    NothingCollected(map[]);
    TwoEntries(map[], map[], hd, hn);
    AppliedClean(map[], hd);
    AppliedTreeOk(map[], hd, p);
    CollectedClean(map[], hd);
    NamesPreserved(map[], hd);
    var t1: Tree, s1: Files := map[p := Landed(d, None)], map[p := hd];
    assert CollectedAt(map[], hd, p) == s1;
    AppliedClean(t1, hn);
    CollectedClean(s1, hn);
    WhNotPlain(p);
    DirEntry(hd);
    DirEntry(hn);
    assert AppliedAt(t1, hn, p) == map[p := Landed(n, None)];
  }

  /** Without (S), also with the same times: a directory replaced in the same layer by a link to nothing. Setting
      the times of the directory follows the link and fails, and in the saved layer no directory is left to set the
      times of. */
  lemma DanglingLink(world: World, p: string, d: Node, n: Node)
    requires Plain(p) && TopLevel(p) && d.IsDir() && n.kind.Symlink?
    requires world(map[p := Landed(n, None)], p).Missing?
    ensures !AfterLayers(world, map[], [[Add(p, d), Add(p, n)]]).ok
    ensures AfterLayer(world, map[], [Add(p, n)]) == Outcome(true, map[p := Landed(n, None)])
    ensures NeedsOnly(world, DirTimesKept, map[], [[Add(p, d), Add(p, n)]], [Add(p, n)])
  {
    hide Plain, BaseStart, CleanEntry, Target, IsWhiteout, Collected, Wh, Under, AfterEntry, IsDirEntry, CleanName;
    hide Addition, Landed, IsSaved, NamesOk, DirsOf, AfterEntries, CollectedAll, EntryMeets, LayerMeets, AfterLayer;
    AdditionClean(p, d, 0);
    AdditionClean(p, n, 0);
    var hd, hn := Add(p, d), Add(p, n);
    var layers: seq<seq<Header>> := [[hd, hn]];
    assert layers[..0] == [];
    TopLevelParent(p);
    NothingCollected(map[]);
    DirThenLink(world, p, d, n);
    assert AfterLayers(world, map[], layers) == AfterLayer(world, map[], [hd, hn]);
    assert CollectedLayers(layers) == map[p := hn];
    SavedOne(p, hn);
    EmptyTreeOk();
    OneEntry(world, map[], map[], hn);
    forall c
      ensures StackMeets(world, c, map[], layers) <==> c != DirTimesKept
    {
      assert StackMeets(world, c, map[], layers[..0]);
      assert StackMeets(world, c, map[], layers) <==> LayerMeets(world, c, map[], map[], [hd, hn]);
      DirThenLinkMeets(world, c, p, d, n);
    }
  }

  lemma DirThenLinkMeets(world: World, c: Condition, p: string, d: Node, n: Node)
    requires Plain(p) && TopLevel(p) && p != "" && d.IsDir() && n.kind.Symlink?
    requires world(map[p := Landed(n, None)], p).Missing?
    ensures LayerMeets(world, c, map[], map[], [Add(p, d), Add(p, n)]) <==> c != DirTimesKept
  {
    hide Plain, BaseStart, CleanEntry, Target, IsWhiteout, Collected, Wh, Under, Landed, LayerMeets, EntryMeets, Parent;
    hide EntriesMeet, CollectedAll, AfterLayer, StampAll, ShowsTimes, At, Hidden;
    var hd, hn := Add(p, d), Add(p, n);
    AdditionClean(p, d, 0);
    AdditionClean(p, n, 0);
    TopLevelParent(p);
    if c.DirTimesKept? {
      DirThenLink(world, p, d, n);
      LinkMade(p, n, hn);
      SettledMeets(world, map[], map[], [hd, hn]);
      StampExact(world, map[p := Landed(n, None)], DirsOf([hd, hn]));
    } else {
      TwoEntriesMeet(world, c, map[], map[], hd, hn);
      FirstMeets(c, map[], hd);
      OverDirectory(c, p, d, n);
    }
  }

  lemma LinkMade(p: string, n: Node, h: Header)
    requires Plain(p) && h.node == n
    ensures Made(map[p := h], map[]) == map[p := Landed(n, None)]
  {
    hide Plain, Landed, Hidden;
    var s: Files, b: Tree := map[p := h], map[];
    assert At(s, b, p) == Some(Landed(n, None));
    assert forall q :: q in Made(s, b) <==> q == p;
  }

  lemma DirThenLink(world: World, p: string, d: Node, n: Node)
    requires Plain(p) && TopLevel(p) && d.IsDir() && n.kind.Symlink?
    requires world(map[p := Landed(n, None)], p).Missing?
    ensures p != ""
    ensures !StampAll(world, map[p := Landed(n, None)], DirsOf([Add(p, d), Add(p, n)])).ok
    ensures !AfterLayer(world, map[], [Add(p, d), Add(p, n)]).ok
    ensures CollectedAll(map[], [Add(p, d), Add(p, n)]) == map[p := Add(p, n)]
  {
    hide Plain, BaseStart, CleanEntry, Target, IsWhiteout, Collected, Wh, Under, AfterEntry, IsDirEntry, CleanName;
    hide Addition, Landed, NamesOk, DirsOf, AfterEntries, CollectedAll;
    AdditionClean(p, d, 0);
    AdditionClean(p, n, 0);
    DirThenOther(p, d, n);
    var t: Tree, hd := map[p := Landed(n, None)], Add(p, d);
    assert t[p].kind.Symlink? by {
      LandedKind(n);
    }
    assert Leads(world, t, p) == Missing;
    DirEntry(hd);
    assert [hd][..0] == [];
  }

  lemma LandedKind(n: Node)
    ensures Landed(n, None).kind == n.kind
  {}

  /** Without (L): an entry whose directory was whited out, and is not listed again, sorts before that whiteout and is
      removed by it. */
  lemma UnlistedParent(world: World, p: string, q: string, was: Node, x: Node)
    requires Plain(p) && TopLevel(p) && Plain(q) && Parent(q) == p && was.IsDir() && !x.IsDir() && p[0] < '.'
    ensures var b := map[p := was];
      var layers := [[Whiteout(p)], [Add(q, x)]];
      && AfterLayers(world, b, layers) == Outcome(true, map[p := MADE, q := Landed(x, None)])
      && AfterLayer(world, b, [Add(q, x), Whiteout(p)]) == Outcome(true, map[])
      && NeedsOnly(world, ParentsListed, b, layers, [Add(q, x), Whiteout(p)])
  {
    hide EntryMeets, StackMeets, LayerMeets;
    hide Plain, BaseStart, CleanEntry, Target, IsWhiteout, Wh, Under, Landed, Less, IsSaved, Collected, CollectedAll;
    hide AfterLayer, AfterLayers, CollectedLayers, Parent, TreeOk, NamesOk;
    AdditionClean(q, x, 0);
    WhiteoutClean(p);
    TopLevelParent(p);
    NothingCollected(map[]);
    var b: Tree := map[p := was];
    var hw, hx := Whiteout(p), Add(q, x);
    var layers: seq<seq<Header>> := [[hw], [hx]];
    assert layers[..1] == [[hw]] && layers[..1][..0] == [];
    BaseOk(b, p);
    OneEntry(world, b, map[], hw);
    assert AppliedAt(b, hw, p) == map[];
    assert CollectedAt(map[], hw, p) == map[Wh(p) := hw];
    NamesPreserved(map[], hw);
    CollectedClean(map[], hw);
    ResultsOne(world, b, layers);
    UnlistedApplied(world, p, q, x);
    OneCollected(map[Wh(p) := hw], hx);
    CollectedClean(map[Wh(p) := hw], hx);
    ParentDiffers(q);
    WhNotPlain(p);
    WhNotPlain(q);
    WhDistinct(p, q);
    assert CollectedAt(map[Wh(p) := hw], hx, q) == map[q := hx, Wh(p) := hw];
    PlainNoSlash(p);
    LessWhiteout(p, q);
    SavedTwo(q, hx, Wh(p), hw);
    UnlistedSaved(world, p, q, was, x);
    SecondEntry(world, b, hw, hx, map[Wh(p) := hw]);
    UnlistedMeets(p, q, was, x);
    assert p in map[p := MADE, q := Landed(x, None)];
  }

  lemma UnlistedMeets(p: string, q: string, was: Node, x: Node)
    requires Plain(p) && TopLevel(p) && Plain(q) && Parent(q) == p && !x.IsDir() && p != "" && q != ""
    ensures forall c :: EntryMeets(c, map[Wh(p) := Whiteout(p)], map[p := was], Add(q, x))
  {
    hide Plain, BaseStart, CleanEntry, Target, IsWhiteout, Wh, Under;
    AdditionClean(q, x, 0);
    WhNotPlain(p);
    WhParts(p);
    TopLevelParent(q);
    UnderParent(Wh(p), q);
  }

  lemma BaseOk(b: Tree, p: string)
    requires Plain(p) && TopLevel(p) && b.Keys == {p}
    ensures TreeOk(b)
  {}

  // A stack of two layers, the first of which applies.
  lemma ResultsOne(world: World, b: Tree, layers: seq<seq<Header>>)
    requires |layers| == 2 && AfterLayer(world, b, layers[0]).ok
    ensures AfterLayers(world, b, layers) == AfterLayer(world, AfterLayer(world, b, layers[0]).tree, layers[1])
    ensures CollectedLayers(layers) == CollectedAll(CollectedAll(map[], layers[0]), layers[1])
  {
    hide AfterLayer, CollectedAll;
    assert layers[..1] == [layers[0]] && layers[..1][..0] == [];
    assert AfterLayers(world, b, layers[..1]) == AfterLayer(world, b, layers[0]);
    assert CollectedLayers(layers[..1]) == CollectedAll(map[], layers[0]);
  }

  lemma LessWhiteout(p: string, q: string)
    requires TopLevel(p) && HasPrefix(q, p) && p != "" && p[0] < '.'
    ensures Less(q, Wh(p))
  {}

  lemma UnlistedApplied(world: World, p: string, q: string, x: Node)
    requires Plain(p) && TopLevel(p) && Plain(q) && Parent(q) == p && !x.IsDir()
    ensures q != "" && AfterLayer(world, map[], [Add(q, x)]) == Outcome(true, map[p := MADE, q := Landed(x, None)])
  {
    hide Plain, BaseStart, CleanEntry, Target, IsWhiteout, Wh, Under, Landed, Parent, CleanName, Base;
    AdditionClean(q, x, 0);
    var h := Add(q, x);
    CleanEntryParts(h);
    DirEntry(h);
    TopLevelParent(p);
    ParentDiffers(q);
    assert [h][..0] == [];
    assert AfterEntries(map[], [h]) == AfterEntry(map[], h);
    PlainNoSlash(p);
    assert NearestIsDir(map[], "") && NearestIsDir(map[], p);
    assert ParentMissing(map[], q);
    assert MkdirAll(map[], "") == map[];
    assert MkdirAll(map[], p) == map[p := MADE];
    assert DirsOf([h]) == [];
  }

  lemma UnlistedSaved(world: World, p: string, q: string, was: Node, x: Node)
    requires Plain(p) && TopLevel(p) && Plain(q) && Parent(q) == p && was.IsDir() && !x.IsDir()
    ensures q != "" && AfterLayer(world, map[p := was], [Add(q, x), Whiteout(p)]) == Outcome(true, map[])
  {
    hide Plain, BaseStart, CleanEntry, Target, IsWhiteout, Wh, Under, Landed, TreeOk, CleanName, IsDirEntry;
    hide AfterEntry, AppliedAt;
    AdditionClean(q, x, 0);
    WhiteoutClean(p);
    var b: Tree := map[p := was];
    var hx, hw := Add(q, x), Whiteout(p);
    BaseOk(b, p);
    AppliedClean(b, hx);
    AppliedTreeOk(b, hx, q);
    var t := AppliedAt(b, hx, q);
    ParentDiffers(q);
    AddedBeside(b, hx, p, q);
    TopLevelParent(p);
    AppliedClean(t, hw);
    RemovedBoth(t, hw, p, q);
    TwoEntries(b, map[], hx, hw);
    DirEntry(hx);
    DirEntry(hw);
  }

  lemma AddedBeside(b: Tree, h: Header, p: string, q: string)
    requires !IsWhiteout(h) && b.Keys == {p} && p != q
    ensures AppliedAt(b, h, q).Keys == {p, q}
  {}

  lemma RemovedBoth(t: Tree, h: Header, p: string, q: string)
    requires IsWhiteout(h) && t.Keys == {p, q} && Plain(p) && Plain(q) && Parent(q) == p
    ensures AppliedAt(t, h, p) == map[]
  {
    hide BaseStart, Parent, Under, Plain;
    PlainNoSlash(p);
    TopLevelParent(q);
    UnderParent(q, p);
  }

  /** Without the half of (F) that is about whiteouts: a file lands over a directory beneath which only a whiteout is
      collected. Collecting the file alone still means the same, but the whiteout outlives it, and the saved layer makes
      the directory again. */
  lemma WhiteoutUnderFile(world: World, p: string, q: string, d: Node, n: Node)
    requires Plain(p) && TopLevel(p) && Plain(q) && Parent(q) == p && d.IsDir() && !n.IsDir()
    ensures p != ""
    ensures var layers := [[Add(p, d), Whiteout(q)], [Add(p, n)], [Whiteout(p)]];
      && AfterLayers(world, map[], layers) == Outcome(true, map[])
      && AfterLayer(world, map[], [Whiteout(q)]) == Outcome(true, map[p := MADE])
      && FileOk(CollectedLayers(layers[..1]), Add(p, n))
      && NeedsOnly(world, FilesAboveNothing, map[], layers, [Whiteout(q)])
  {
    hide Plain, BaseStart, CleanEntry, Target, IsWhiteout, Collected, CollectedAll, Wh, Under, IsSaved, Parent;
    hide AfterLayer, TreeOk, NamesOk, Landed, EntryMeets, LayerMeets, CollectedLayers, AfterLayers, StackMeets, FileOk;
    PlainNoSlash(p);
    ParentDiffers(q);
    TopLevelParent(p);
    var hd, wq, hn, wp := Add(p, d), Whiteout(q), Add(p, n), Whiteout(p);
    var layers: seq<seq<Header>> := [[hd, wq], [hn], [wp]];
    var s: Files := map[p := hd, Wh(q) := wq];
    DirectoryAndWhiteout(world, p, q, d);
    FileThenGone(world, p, q, d, n);
    ThreeLayersMeet(world, FilesAboveNothing, map[], [hd, wq], [hn], [wp]);
    ThreeLayers(world, map[], [hd, wq], [hn], [wp]);
    assert layers[..1] == [[hd, wq]];
    WhiteoutAlone(world, p, q);
    SavedOne(Wh(q), wq);
    OneLayerCollected([hd, wq]);
    WhiteoutBeneathMeets(FilesAboveNothing, p, q, d, n);
    assert p in map[p := MADE];
    forall c
      ensures StackMeets(world, c, map[], layers) <==> c != FilesAboveNothing
    {
      ThreeLayersMeet(world, c, map[], [hd, wq], [hn], [wp]);
      TwoLayersMeet(world, c, map[], [hd, wq], [hn]);
      DirectoryAndWhiteoutMeet(world, c, p, q, d);
      AdditionClean(p, n, 0);
      WhiteoutClean(p);
      OneEntryMeets(world, c, s, map[], hn);
      WhiteoutBeneathMeets(c, p, q, d, n);
      OneEntryMeets(world, c, map[p := hn, Wh(q) := wq], map[], wp);
      WhiteoutLastMeets(c, p, q, n);
    }
  }

  lemma OneLayerCollected(layer: seq<Header>)
    ensures CollectedLayers([layer]) == CollectedAll(map[], layer)
  {
    hide CollectedAll;
    var layers: seq<seq<Header>> := [layer];
    assert layers[..0] == [];
    assert CollectedLayers([]) == map[];
  }

  lemma ThreeLayers(world: World, b: Tree, l1: seq<Header>, l2: seq<Header>, l3: seq<Header>)
    requires AfterLayer(world, b, l1).ok && AfterLayer(world, AfterLayer(world, b, l1).tree, l2).ok
    ensures AfterLayers(world, b, [l1, l2, l3]) ==
      AfterLayer(world, AfterLayer(world, AfterLayer(world, b, l1).tree, l2).tree, l3)
  {
    hide AfterLayer;
    var layers: seq<seq<Header>> := [l1, l2, l3];
    assert layers[..2] == [l1, l2] && layers[..2][..1] == [l1] && layers[..2][..1][..0] == [];
    assert AfterLayers(world, b, []) == Outcome(true, b);
    assert AfterLayers(world, b, layers[..2][..1]) == AfterLayer(world, b, l1);
    assert AfterLayers(world, b, layers[..2]) == AfterLayer(world, AfterLayer(world, b, l1).tree, l2);
  }

  lemma DirectoryAndWhiteout(world: World, p: string, q: string, d: Node)
    requires Plain(p) && TopLevel(p) && Plain(q) && Parent(q) == p && d.IsDir() && p != ""
    ensures AfterLayer(world, map[], [Add(p, d), Whiteout(q)]) == Outcome(true, map[p := Landed(d, None)])
    ensures CollectedAll(map[], [Add(p, d), Whiteout(q)]) == map[p := Add(p, d), Wh(q) := Whiteout(q)]
    ensures TreeOk(map[p := Landed(d, None)]) && NamesOk(map[p := Add(p, d), Wh(q) := Whiteout(q)])
  {
    hide Plain, BaseStart, CleanEntry, Target, IsWhiteout, Collected, Wh, Under, AfterEntry, IsDirEntry, CleanName;
    hide TreeOk, NamesOk, Landed;
    var hd, wq := Add(p, d), Whiteout(q);
    AdditionClean(p, d, 0);
    WhiteoutClean(q);
    TopLevelParent(p);
    ParentDiffers(q);
    NothingCollected(map[]);
    TwoEntries(map[], map[], hd, wq);
    BaseOk(map[p := Landed(d, None)], p);
    EmptyTreeOk();
    AppliedClean(map[], hd);
    LandedTimes(d, None);
    assert AppliedAt(map[], hd, p) == map[p := Landed(d, None)];
    CollectedClean(map[], hd);
    NamesPreserved(map[], hd);
    assert CollectedAt(map[], hd, p) == map[p := hd];
    var t: Tree, s: Files := map[p := Landed(d, None)], map[p := hd];
    AppliedClean(t, wq);
    ParentNotUnder(q);
    assert AppliedAt(t, wq, q) == t;
    CollectedClean(s, wq);
    NamesPreserved(s, wq);
    WhNotPlain(q);
    assert CollectedAt(s, wq, q) == map[p := hd, Wh(q) := wq];
    DirEntry(hd);
    DirEntry(wq);
    StampOne(world, t, hd, p);
    assert t[p := t[p].WithTimes(d)] == t;
  }

  lemma EmptyTreeOk()
    ensures TreeOk(map[])
  {}

  lemma FileThen(world: World, p: string, q: string, d: Node, n: Node)
    requires Plain(p) && TopLevel(p) && Plain(q) && Parent(q) == p && d.IsDir() && !n.IsDir() && p != ""
    ensures AfterLayer(world, map[p := Landed(d, None)], [Add(p, n)]) == Outcome(true, map[p := Landed(n, None)])
    ensures CollectedAll(map[p := Add(p, d), Wh(q) := Whiteout(q)], [Add(p, n)]) ==
      map[p := Add(p, n), Wh(q) := Whiteout(q)]
    ensures NamesOk(map[p := Add(p, n), Wh(q) := Whiteout(q)])
  {
    hide Plain, BaseStart, CleanEntry, Target, IsWhiteout, Collected, CollectedAll, Wh, Under, AfterLayer, TreeOk;
    hide NamesOk, Landed, Parent;
    var t: Tree, s: Files := map[p := Landed(d, None)], map[p := Add(p, d), Wh(q) := Whiteout(q)];
    DirectoryAndWhiteout(world, p, q, d);
    AdditionClean(p, n, 0);
    TopLevelParent(p);
    ParentDiffers(q);
    WhNotPlain(q);
    WhDistinct(p, q);
    OneEntry(world, t, s, Add(p, n));
    LandedTimes(d, None);
    assert AppliedAt(t, Add(p, n), p) == map[p := Landed(n, None)];
    assert CollectedAt(s, Add(p, n), p) == map[p := Add(p, n), Wh(q) := Whiteout(q)];
    OneCollected(s, Add(p, n));
    NamesPreserved(s, Add(p, n));
  }

  // The second and third layers, in the tree and in the collected entries.
  lemma FileThenGone(world: World, p: string, q: string, d: Node, n: Node)
    requires Plain(p) && TopLevel(p) && Plain(q) && Parent(q) == p && d.IsDir() && !n.IsDir() && p != ""
    ensures AfterLayer(world, map[p := Landed(d, None)], [Add(p, n)]) == Outcome(true, map[p := Landed(n, None)])
    ensures AfterLayer(world, map[p := Landed(n, None)], [Whiteout(p)]) == Outcome(true, map[])
    ensures CollectedAll(map[p := Add(p, d), Wh(q) := Whiteout(q)], [Add(p, n)]) ==
      map[p := Add(p, n), Wh(q) := Whiteout(q)]
    ensures CollectedAll(map[p := Add(p, n), Wh(q) := Whiteout(q)], [Whiteout(p)]) == map[Wh(q) := Whiteout(q)]
    ensures NamesOk(map[p := Add(p, n), Wh(q) := Whiteout(q)])
  {
    hide Plain, BaseStart, CleanEntry, Target, IsWhiteout, Collected, CollectedAll, Wh, Under, AfterLayer, TreeOk;
    hide NamesOk;
    hide Landed, Parent;
    var t2: Tree := map[p := Landed(n, None)];
    var s2: Files := map[p := Add(p, n), Wh(q) := Whiteout(q)];
    FileThen(world, p, q, d, n);
    WhiteoutClean(p);
    TopLevelParent(p);
    ParentDiffers(q);
    BaseOk(t2, p);
    WhNotPlain(q);
    OneEntry(world, t2, s2, Whiteout(p));
    assert AppliedAt(t2, Whiteout(p), p) == map[];
    assert CollectedAt(s2, Whiteout(p), p) == map[Wh(q) := Whiteout(q)];
  }

  lemma WhiteoutAlone(world: World, p: string, q: string)
    requires Plain(p) && TopLevel(p) && Plain(q) && Parent(q) == p && p != ""
    ensures AfterLayer(world, map[], [Whiteout(q)]) == Outcome(true, map[p := MADE])
  {
    hide Plain, BaseStart, CleanEntry, Target, IsWhiteout, Wh, Under, Parent, CleanName, Base, DirPart;
    var h := Whiteout(q);
    WhiteoutClean(q);
    CleanEntryParts(h);
    WhParts(q);
    OriginalIs(q);
    DirEntry(h);
    TopLevelParent(p);
    ParentNotUnder(q);
    assert [h][..0] == [];
    assert AfterEntries(map[], [h]) == AfterEntry(map[], h);
    assert NearestIsDir(map[], "") && NearestIsDir(map[], p);
    assert ParentMissing(map[], Wh(q));
    assert MkdirAll(map[], "") == map[];
    assert MkdirAll(map[], p) == map[p := MADE];
    assert Prune(map[p := MADE], q) == map[p := MADE];
    assert DirsOf([h]) == [];
  }

  lemma DirectoryAndWhiteoutMeet(world: World, c: Condition, p: string, q: string, d: Node)
    requires Plain(p) && TopLevel(p) && Plain(q) && Parent(q) == p && d.IsDir() && p != ""
    ensures LayerMeets(world, c, map[], map[], [Add(p, d), Whiteout(q)])
  {
    hide Plain, BaseStart, CleanEntry, Target, IsWhiteout, Collected, Wh, Under, Landed, LayerMeets, EntryMeets, Parent;
    hide EntriesMeet, CollectedAll, Settled, AfterLayer, TreeOk, NamesOk;
    var hd, wq := Add(p, d), Whiteout(q);
    AdditionClean(p, d, 0);
    WhiteoutClean(q);
    TopLevelParent(p);
    if c.DirTimesKept? {
      DirectoryAndWhiteout(world, p, q, d);
      var s: Files := map[p := hd, Wh(q) := wq];
      LandedTimes(d, None);
      WhNotPlain(q);
      assert At(s, map[], p) == Some(Landed(d, None));
      TwoSettled(world, s, map[], hd, wq, Landed(d, None));
      SettledMeets(world, map[], map[], [hd, wq]);
    } else {
      TwoEntriesMeet(world, c, map[], map[], hd, wq);
      FirstMeets(c, map[], hd);
      NothingCollected(map[]);
      CollectedClean(map[], hd);
      assert CollectedAt(map[], hd, p) == map[p := hd];
      ParentDiffers(q);
      UncollectedMeets(c, map[p := hd], map[], wq);
    }
  }

  // A whiteout of what neither the base nor a collected entry has.
  lemma UncollectedMeets(c: Condition, s: Files, b: Tree, h: Header)
    requires IsWhiteout(h) && Target(h) !in b
    ensures EntryMeets(c, s, b, h)
  {
    hide Target;
  }

  lemma WhiteoutBeneathMeets(c: Condition, p: string, q: string, d: Node, n: Node)
    requires Plain(p) && TopLevel(p) && Plain(q) && Parent(q) == p && d.IsDir() && !n.IsDir() && p != ""
    ensures FileOk(map[p := Add(p, d), Wh(q) := Whiteout(q)], Add(p, n))
    ensures EntryMeets(c, map[p := Add(p, d), Wh(q) := Whiteout(q)], map[], Add(p, n)) <==> c != FilesAboveNothing
  {
    hide Plain, BaseStart, CleanEntry, Target, IsWhiteout, Wh, Parent;
    AdditionClean(p, n, 0);
    WhNotPlain(q);
    WhParts(q);
    TopLevelParent(q);
    UnderParent(Wh(q), p);
    assert Wh(q) in map[p := Add(p, d), Wh(q) := Whiteout(q)];
  }

  lemma WhiteoutLastMeets(c: Condition, p: string, q: string, n: Node)
    requires Plain(p) && p != ""
    ensures EntryMeets(c, map[p := Add(p, n), Wh(q) := Whiteout(q)], map[], Whiteout(p))
  {
    hide Plain, Target, IsWhiteout;
    WhiteoutClean(p);
    UncollectedMeets(c, map[p := Add(p, n), Wh(q) := Whiteout(q)], map[], Whiteout(p));
  }
}
