/** Exporting the changes between two trees and applying them to the old one gives the new one
    (ExportChanges of changes.go, ApplyLayer of diff.go).
  */
module RoundTrip {
  import opened Wrappers
  import opened Names
  import opened FileTree
  import opened Collect
  import opened Meaning
  import opened Squash
  import opened Changes
  import opened Layers

  /** The entry addTarFile writes and a reader gets back: times come in whole seconds. */
  function FileEntry(p: string, x: Node): (h: Header)
    requires p != ""
  {
    Addition(p, x.(nsec := 0), if x.kind.Regular? then |x.content| else 0)
  }

  // An entry that cannot be read is logged and left out.
  function Entries(n: Tree, c: Change): seq<Header> {
    if c.kind.Delete? then [Whiteout(c.path)]
    else if c.path in n && c.path != "" then [FileEntry(c.path, n[c.path])]
    else []
  }

  function Exported(n: Tree, cs: seq<Change>): seq<Header> {
    if cs == [] then [] else Exported(n, cs[..|cs| - 1]) + Entries(n, cs[|cs| - 1])
  }

  method ExportChanges(n: Tree, cs: seq<Change>) returns (layer: seq<Header>)
    ensures layer == Exported(n, cs)
  {
    layer := [];
    for i := 0 to |cs|
      invariant layer == Exported(n, cs[..i])
    {
      assert cs[..i + 1][..i] == cs[..i];
      if cs[i].kind.Delete? {
        layer := layer + [Whiteout(cs[i].path)];
      } else if cs[i].path in n && cs[i].path != "" {
        layer := layer + [FileEntry(cs[i].path, n[cs[i].path])];
      }
    }
    assert cs[..|cs|] == cs;
  }

  /** The sizes lstat shows for what was added or modified and is no directory. */
  function ChangedSize(n: Tree, cs: seq<Change>): int {
    if cs == [] then 0
    else
      var c := cs[|cs| - 1];
      ChangedSize(n, cs[..|cs| - 1]) +
        if !c.kind.Delete? && c.path in n && !n[c.path].IsDir() then |n[c.path].content| else 0
  }

  method ChangesSize(n: Tree, cs: seq<Change>) returns (size: int)
    ensures size == ChangedSize(n, cs)
  {
    size := 0;
    for i := 0 to |cs|
      invariant size == ChangedSize(n, cs[..i])
    {
      assert cs[..i + 1][..i] == cs[..i];
      if cs[i].kind.Modify? || cs[i].kind.Added? {
        if cs[i].path in n && !n[cs[i].path].IsDir() {
          size := size + |n[cs[i].path].content|;
        }
      }
    }
    assert cs[..|cs|] == cs;
  }

  lemma {:induction false} TotalConcat(a: seq<Header>, c: seq<Header>)
    ensures TotalSize(a + c) == TotalSize(a) + TotalSize(c)
  {
    if c == [] {
      assert a + c == a;
    } else {
      assert (a + c)[..|a + c| - 1] == a + c[..|c| - 1];
      TotalConcat(a, c[..|c| - 1]);
    }
  }

  /** The size of a list of changes is the total of the sizes in the headers it is exported as, when no link changed. */
  lemma {:induction false} ExportedSize(n: Tree, cs: seq<Change>)
    requires TreeOk(n) && forall c :: c in cs && c.path in n ==> !n[c.path].kind.Symlink?
    ensures TotalSize(Exported(n, cs)) == ChangedSize(n, cs)
  {
    if cs == [] {
    } else {
      var before, c := cs[..|cs| - 1], cs[|cs| - 1];
      ExportedSize(n, before);
      TotalConcat(Exported(n, before), Entries(n, c));
      EntrySize(n, c);
    }
  }

  lemma EntrySize(n: Tree, c: Change)
    requires TreeOk(n) && (c.path in n ==> !n[c.path].kind.Symlink?)
    ensures TotalSize(Entries(n, c)) ==
      if !c.kind.Delete? && c.path in n && !n[c.path].IsDir() then |n[c.path].content| else 0
  {
    hide Plain, BaseStart, Wh;
    if c.path in n {
      TreeNames(n, c.path);
    }
    var hs := Entries(n, c);
    if hs != [] {
      assert hs[..0] == [];
      assert TotalSize(hs) == hs[0].size;
    }
  }

  // ---- what the first entries of an exported layer collect ----

  /** s holds, for each change of cs, its entry. */
  ghost predicate Holds(n: Tree, cs: seq<Change>, s: Files) {
    && NamesOk(s)
    && (forall k :: k in s && Plain(k) ==>
      k in n && s[k] == FileEntry(k, n[k]) && exists c :: c in cs && c.path == k && !c.kind.Delete?)
    && (forall c :: c in cs && !c.kind.Delete? ==> c.path in s)
    && (forall p :: Plain(p) ==> (Wh(p) in s <==> Change(p, Delete) in cs))
  }

  lemma FileEntryClean(p: string, x: Node)
    requires Plain(p)
    ensures p != ""
    ensures CleanEntry(FileEntry(p, x)) && Target(FileEntry(p, x)) == p && !IsWhiteout(FileEntry(p, x))
    ensures FileEntry(p, x).IsDir() == x.IsDir()
  {
    AdditionClean(p, x.(nsec := 0), if x.kind.Regular? then |x.content| else 0);
    PlainNoSlash(p);
  }

  // ---- one change ----

  // Nothing the new tree has is hidden, unless it is itself collected.
  lemma {:induction false} NewVisible(n: Tree, cs: seq<Change>, s: Files, q: string)
    requires TreeOk(n) && Holds(n, cs, s)
    requires forall c :: c in cs && c.kind.Delete? ==> c.path !in n
    requires q in n && q !in s
    ensures !Hidden(s, q)
  {
    hide Plain, BaseStart, FileEntry, NamesOk;
    assert Plain(q);
    TopLevelParent(q);
    if TopLevel(q) {
    } else {
      PlainParent(q);
      NewDirVisible(n, cs, s, Parent(q));
    }
  }

  lemma {:induction false} NewDirVisible(n: Tree, cs: seq<Change>, s: Files, q: string)
    requires TreeOk(n) && Holds(n, cs, s)
    requires forall c :: c in cs && c.kind.Delete? ==> c.path !in n
    requires q in n && n[q].IsDir()
    ensures !Hidden(s, q)
    decreases |q|
  {
    hide Plain, BaseStart, NamesOk, FileEntry;
    assert Plain(q);
    PlainNoSlash(q);
    FileEntryClean(q, n[q]);
    TopLevelParent(q);
    if TopLevel(q) {
    } else {
      PlainParent(q);
      NewDirVisible(n, cs, s, Parent(q));
    }
  }

  /** The state after the changes of cs: the tree, and what was collected. */
  ghost predicate Reached(n: Tree, o: Tree, cs: seq<Change>, t: Tree, s: Files) {
    TreeOk(t) && Represents(t, s, o) && Holds(n, cs, s)
  }

  // A directory of the new tree is there once its own change, if it has one, is applied.
  lemma ParentReady(n: Tree, o: Tree, all: seq<Change>, i: nat, t: Tree, s: Files)
    requires TreeOk(n) && TreeOk(o) && Lists(n, o, all) && i < |all|
    requires Reached(n, o, all[..i], t, s)
    ensures Plain(all[i].path) && DirAt(t, Parent(all[i].path)) && DirAt(n, Parent(all[i].path))
  {
    hide Plain, BaseStart, NamesOk, Hidden, Landed, FileEntry, Ordered, Parent;
    var c := all[i];
    assert c in all;
    ExpectedPlain(n, o, c);
    var p := Parent(c.path);
    assert DirAt(n, p);
    if p != "" {
      assert Get(t, p) == At(s, o, p);
      if p in s {
        PlainNoSlash(p);
        FileEntryClean(p, n[p]);
        LandedTimes(s[p].node, Get(o, p));
      } else {
        ParentUnchanged(n, o, all, i, s, p);
        NewVisible(n, all[..i], s, p);
      }
    }
  }

  lemma ParentUnchanged(n: Tree, o: Tree, all: seq<Change>, i: nat, s: Files, p: string)
    requires TreeOk(n) && TreeOk(o) && Lists(n, o, all) && i < |all| && Holds(n, all[..i], s)
    requires p == Parent(all[i].path) && p in n && n[p].IsDir() && p !in s && Plain(all[i].path) && p != ""
    ensures p in o && o[p].IsDir()
    ensures forall c :: c in all[..i] && c.kind.Delete? ==> c.path !in n
  {
    hide Plain, BaseStart, NamesOk, Parent;
    TopLevelParent(all[i].path);
    PlainParent(all[i].path);
    assert forall c :: c in all[..i] ==> c in all;
    if p !in o {
      assert Expected(n, o, Change(p, Added));
      NotYet(all, i, Change(p, Added));
    } else if Differs(o[p], n[p]) {
      assert Expected(n, o, Change(p, Modify));
      NotYet(all, i, Change(p, Modify));
    }
  }

  // A change to a path above comes earlier.
  lemma NotYet(all: seq<Change>, i: nat, c: Change)
    requires Ordered(all) && i < |all| && c in all && Under(all[i].path, c.path)
    ensures c in all[..i]
  {
  }

  function EntryFor(n: Tree, c: Change): Header
    requires c.path != "" && (c.path in n || c.kind.Delete?)
  {
    if c.kind.Delete? then Whiteout(c.path) else FileEntry(c.path, n[c.path])
  }

  lemma EntryForClean(n: Tree, c: Change)
    requires Plain(c.path) && (c.path in n || c.kind.Delete?)
    ensures c.path != ""
    ensures CleanEntry(EntryFor(n, c)) && Target(EntryFor(n, c)) == c.path
    ensures IsWhiteout(EntryFor(n, c)) <==> c.kind.Delete?
    ensures !c.kind.Delete? ==> EntryFor(n, c).IsDir() == n[c.path].IsDir()
    ensures Entries(n, c) == [EntryFor(n, c)]
  {
    hide BaseStart, Plain, CleanEntry, IsWhiteout, Target, FileEntry, Whiteout;
    PlainNoSlash(c.path);
    if c.kind.Delete? {
      WhiteoutClean(c.path);
    } else {
      FileEntryClean(c.path, n[c.path]);
    }
  }

  // No change of the first i is about the path of the next one.
  lemma PathFresh(all: seq<Change>, i: nat, c: Change)
    requires Ordered(all) && i < |all| && c in all[..i]
    ensures c.path != all[i].path
  {}

  // The next entry meets the conditions of the simulation.
  lemma NextEntryOk(n: Tree, o: Tree, all: seq<Change>, i: nat, s: Files)
    requires TreeOk(n) && TreeOk(o) && Lists(n, o, all) && i < |all| && Holds(n, all[..i], s)
    requires Plain(all[i].path) && all[i].path != "" && (all[i].path in n || all[i].kind.Delete?)
    ensures StrandsNone(s, EntryFor(n, all[i])) && EntryOk(s, o, EntryFor(n, all[i]))
    ensures all[i].path !in s && (!all[i].kind.Delete? ==> Wh(all[i].path) !in s)
  {
    hide Plain, BaseStart, NamesOk, FileEntry, CleanEntry, IsWhiteout, Target, EntryFor, Ordered, Wh, Differs, Under;
    var c := all[i];
    var h := EntryFor(n, c);
    EntryForClean(n, c);
    assert c in all;
    assert forall d :: d in all[..i] ==> d in all;
    if c.path in s {
      var d :| d in all[..i] && d.path == c.path;
      PathFresh(all, i, d);
    }
    if Change(c.path, Delete) in all[..i] {
      PathFresh(all, i, Change(c.path, Delete));
    }
    forall k | k in s && Plain(k) && Under(k, c.path)
      ensures c.path in n && n[c.path].IsDir()
    {
      AboveIsDir(n, k, c.path);
    }
  }

  lemma HoldsNext(n: Tree, o: Tree, all: seq<Change>, i: nat, s: Files)
    requires Lists(n, o, all) && i < |all| && Holds(n, all[..i], s)
    requires Plain(all[i].path) && all[i].path != "" && (all[i].path in n || all[i].kind.Delete?)
    requires all[i].path !in s && (!all[i].kind.Delete? ==> Wh(all[i].path) !in s)
    ensures Holds(n, all[..i + 1], Collected(s, EntryFor(n, all[i])))
  {
    hide Plain, BaseStart, NamesOk, FileEntry, CleanEntry, IsWhiteout, Target, Ordered, Wh, Collected, Whiteout;
    hide Expected;
    var c := all[i];
    var p := c.path;
    var h := EntryFor(n, c);
    EntryForClean(n, c);
    CollectedClean(s, h);
    NamesPreserved(s, h);
    var s' := CollectedAt(s, h, p);
    assert all[..i + 1] == all[..i] + [c];
    WhNotPlain(p);
    forall k | Plain(k)
      ensures k != ""
    {
      PlainNoSlash(k);
    }
    forall k | k in s' && Plain(k)
      ensures k in n && s'[k] == FileEntry(k, n[k]) && exists d :: d in all[..i + 1] && d.path == k && !d.kind.Delete?
    {
      if k == p {
        assert c in all[..i + 1];
      } else {
        var d :| d in all[..i] && d.path == k && !d.kind.Delete?;
        assert d in all[..i + 1];
      }
    }
    forall d | d in all[..i + 1] && !d.kind.Delete?
      ensures d.path in s'
    {
      if d in all[..i] {
        assert d.path in s;
      }
    }
    forall q | Plain(q)
      ensures Wh(q) in s' <==> Change(q, Delete) in all[..i + 1]
    {
      WhNotPlain(q);
      if q != p {
        WhDistinct(p, q);
      }
      assert Change(q, Delete) in all[..i + 1] <==> Change(q, Delete) in all[..i] || Change(q, Delete) == c;
    }
  }

  // ---- the whole list ----

  /** The last directory entry for a path is the one collected. */
  ghost predicate TimesHeld(hs: seq<Header>, s: Files) {
    && (forall q :: LastFor(DirsOf(hs), q).Some? ==> q in s && s[q] == LastFor(DirsOf(hs), q).value)
    && (forall h :: h in DirsOf(hs) ==> CleanEntry(h) && h.IsDir())
  }

  lemma ExportedNext(n: Tree, all: seq<Change>, i: nat)
    requires i < |all| && Plain(all[i].path) && all[i].path != "" && (all[i].path in n || all[i].kind.Delete?)
    ensures Exported(n, all[..i + 1]) == Exported(n, all[..i]) + [EntryFor(n, all[i])]
  {
    hide Plain, BaseStart, EntryFor, Entries, CleanEntry, Target, IsWhiteout;
    EntryForClean(n, all[i]);
    assert all[..i + 1][..i] == all[..i];
  }

  lemma TimesNext(hs: seq<Header>, s: Files, h: Header)
    requires TimesHeld(hs, s) && NamesOk(s) && CleanEntry(h) && Target(h) !in s
    ensures TimesHeld(hs + [h], Collected(s, h))
  {
    hide Plain, BaseStart, NamesOk, CleanEntry, IsWhiteout, Target, Wh, Collected, CollectedAt, CleanName;
    hide IsDirEntry, LastFor;
    assert (hs + [h])[..|hs|] == hs;
    DirEntry(h);
    var dirs := DirsOf(hs);
    assert DirsOf(hs + [h]) == if h.IsDir() then dirs + [h] else dirs;
    forall q | LastFor(DirsOf(hs + [h]), q).Some?
      ensures q in Collected(s, h) && Collected(s, h)[q] == LastFor(DirsOf(hs + [h]), q).value
    {
      LastForNext(dirs, h, q);
      if LastFor(dirs, q).Some? {
        LastForMember(dirs, q);
        DirEntry(LastFor(dirs, q).value);
      }
      CollectedKeeps(s, h, q);
    }
  }

  lemma LastForNext(dirs: seq<Header>, h: Header, q: string)
    ensures LastFor(dirs + [h], q) == if CleanName(h.name) == q then Some(h) else LastFor(dirs, q)
  {
    assert (dirs + [h])[..|dirs|] == dirs;
  }

  // Collecting an entry for a new path keeps what is collected elsewhere.
  lemma CollectedKeeps(s: Files, h: Header, q: string)
    requires NamesOk(s) && CleanEntry(h) && Target(h) !in s
    ensures q in s && Plain(q) ==> q in Collected(s, h) && Collected(s, h)[q] == s[q]
    ensures h.IsDir() ==> Target(h) in Collected(s, h) && Collected(s, h)[Target(h)] == h
  {
    hide Plain, BaseStart, NamesOk, CleanEntry, IsWhiteout, Target, Wh, Collected;
    CollectedClean(s, h);
    DirEntry(h);
    WhNotPlain(Target(h));
  }

  /** After the first i changes the tree is what their entries make of the old one. */
  lemma {:induction false} Replay(n: Tree, o: Tree, all: seq<Change>, i: nat)
    requires TreeOk(n) && TreeOk(o) && Lists(n, o, all) && i <= |all|
    ensures var hs := Exported(n, all[..i]);
      && |hs| == i
      && AfterEntries(o, hs).ok
      && Reached(n, o, all[..i], AfterEntries(o, hs).tree, CollectedAll(map[], hs))
      && TimesHeld(hs, CollectedAll(map[], hs))
  {
    hide TreeOk, Reached, Lists, TimesHeld, CollectedAll, AfterEntries, Exported;
    if i == 0 {
      ReplayNone(n, o);
      assert all[..0] == [];
    } else {
      Replay(n, o, all, i - 1);
      ReplayNext(n, o, all, i - 1, Exported(n, all[..i - 1]));
    }
  }

  lemma ReplayNone(n: Tree, o: Tree)
    requires TreeOk(o)
    ensures Exported(n, []) == [] && AfterEntries(o, []) == Outcome(true, o) && CollectedAll(map[], []) == map[]
    ensures Reached(n, o, [], o, map[]) && TimesHeld([], map[])
  {
    hide Plain, BaseStart;
    NothingCollected(o);
  }

  // The next change, as a step of the simulation.
  lemma NextStep(n: Tree, o: Tree, all: seq<Change>, i: nat, t: Tree, s: Files)
    requires TreeOk(n) && TreeOk(o) && Lists(n, o, all) && i < |all| && Reached(n, o, all[..i], t, s)
    ensures Plain(all[i].path) && all[i].path != "" && (all[i].path in n || all[i].kind.Delete?)
    ensures var h := EntryFor(n, all[i]);
      && CleanEntry(h) && Target(h) !in s && NamesOk(s)
      && !ParentMissing(t, CleanName(h.name)) && AfterEntry(t, h).ok
      && Reached(n, o, all[..i + 1], AfterEntry(t, h).tree, Collected(s, h))
  {
    hide Plain, BaseStart, TreeOk, Represents, Collected, AfterEntry, EntryFor, Lists, Ordered;
    hide StrandsNone, EntryOk, CleanEntry, Target, NamesOk, ParentMissing, DirAt;
    ParentReady(n, o, all, i, t, s);
    ChangeKnown(n, o, all, i);
    var h := EntryFor(n, all[i]);
    EntryForClean(n, all[i]);
    NextEntryOk(n, o, all, i, s);
    AppliedClean(t, h);
    StepSimulates(t, s, o, h);
    HoldsNext(n, o, all, i, s);
  }

  lemma ReplayNext(n: Tree, o: Tree, all: seq<Change>, i: nat, hs: seq<Header>)
    requires TreeOk(n) && TreeOk(o) && Lists(n, o, all) && i < |all|
    requires hs == Exported(n, all[..i]) && AfterEntries(o, hs).ok
    requires Reached(n, o, all[..i], AfterEntries(o, hs).tree, CollectedAll(map[], hs))
    requires TimesHeld(hs, CollectedAll(map[], hs))
    ensures var more := Exported(n, all[..i + 1]);
      && |more| == |hs| + 1
      && more[..|hs|] == hs
      && !ParentMissing(AfterEntries(o, hs).tree, CleanName(more[|hs|].name))
      && AfterEntries(o, more).ok
      && Reached(n, o, all[..i + 1], AfterEntries(o, more).tree, CollectedAll(map[], more))
      && TimesHeld(more, CollectedAll(map[], more))
  {
    hide Plain, TreeOk, TimesHeld, Collected, AfterEntry, EntryFor, Reached, Lists, Exported;
    hide CleanEntry, Target, NamesOk, ParentMissing;
    var t, s := AfterEntries(o, hs).tree, CollectedAll(map[], hs);
    NextStep(n, o, all, i, t, s);
    var h := EntryFor(n, all[i]);
    TimesNext(hs, s, h);
    ExportedNext(n, all, i);
    assert (hs + [h])[..|hs|] == hs;
    assert AfterEntries(o, hs + [h]) == AfterEntry(t, h);
    assert CollectedAll(map[], hs + [h]) == Collected(s, h);
  }

  lemma ChangeKnown(n: Tree, o: Tree, all: seq<Change>, i: nat)
    requires Lists(n, o, all) && i < |all| && Plain(all[i].path)
    ensures all[i].path != "" && (all[i].path in n || all[i].kind.Delete?)
  {
    hide Plain;
    PlainNoSlash(all[i].path);
    assert all[i] in all;
  }

  /** No missing parent directory ever has to be made while an exported layer is applied. */
  lemma NoParentMade(n: Tree, o: Tree, all: seq<Change>, i: nat)
    requires TreeOk(n) && TreeOk(o) && Lists(n, o, all) && i < |all|
    ensures var layer := Exported(n, all);
      |layer| == |all| && !ParentMissing(AfterEntries(o, layer[..i]).tree, CleanName(layer[i].name))
  {
    hide TreeOk, Represents, Holds, Lists, TimesHeld, ParentMissing, AfterEntries, CollectedAll, CleanName;
    assert all[..|all|] == all;
    Replay(n, o, all, |all|);
    Replay(n, o, all, i);
    ReplayNext(n, o, all, i, Exported(n, all[..i]));
    ExportedPrefix(n, all, i + 1);
    ExportedPrefix(n, all, i);
    var layer := Exported(n, all);
    assert layer[..i] == Exported(n, all[..i]);
    assert layer[i] == Exported(n, all[..i + 1])[i];
  }

  lemma {:induction false} ExportedPrefix(n: Tree, all: seq<Change>, i: nat)
    requires i <= |all|
    ensures Exported(n, all[..i]) <= Exported(n, all)
    decreases |all|
  {
    if i == |all| {
      assert all[..i] == all;
    } else {
      assert all[..|all| - 1][..i] == all[..i];
      ExportedPrefix(n, all[..|all| - 1], i);
    }
  }

  // ---- the result ----

  /** What the applied tree shows at a path of the new tree: the exported node where something changed, the old node
      where nothing did. */
  function Result(n: Tree, o: Tree, p: string): Node
    requires p in n && p != ""
  {
    if p !in o || Differs(o[p], n[p]) then Landed(FileEntry(p, n[p]).node, Get(o, p)) else o[p]
  }

  lemma ResultAt(n: Tree, o: Tree, all: seq<Change>, s: Files, p: string)
    requires TreeOk(n) && TreeOk(o) && Lists(n, o, all) && Holds(n, all, s) && p in n && p != ""
    ensures At(s, o, p) == Some(Result(n, o, p))
  {
    hide Plain, BaseStart, NamesOk, Hidden, Landed, FileEntry, Ordered, Wh, Parent;
    assert Plain(p);
    if p in s {
      var c :| c in all && c.path == p && !c.kind.Delete?;
      assert Expected(n, o, c);
    } else {
      assert Expected(n, o, Change(p, Added)) ==> Change(p, Added) in all;
      assert Expected(n, o, Change(p, Modify)) ==> Change(p, Modify) in all;
      forall c | c in all && c.kind.Delete?
        ensures c.path !in n
      {
        assert Expected(n, o, c);
      }
      NewVisible(n, all, s, p);
    }
  }

  // What the new tree does not have is taken away, by its own whiteout or by what replaced a directory above it.
  lemma {:induction false} AbsentHidden(n: Tree, o: Tree, all: seq<Change>, s: Files, p: string)
    requires TreeOk(n) && TreeOk(o) && Lists(n, o, all) && Holds(n, all, s) && p in o && p !in n
    ensures Hidden(s, p)
    decreases |p|
  {
    hide Plain, BaseStart, NamesOk, Landed, FileEntry, Ordered, Wh;
    assert Plain(p);
    TopLevelParent(p);
    if DirAt(n, Parent(p)) {
      assert Expected(n, o, Change(p, Delete));
    } else {
      PlainParent(p);
      var q := Parent(p);
      if q in n {
        FileEntryClean(q, n[q]);
        assert Expected(n, o, Change(q, Modify));
        assert Change(q, Modify) in all;
      } else {
        AbsentHidden(n, o, all, s, q);
      }
    }
  }

  /** Applying the exported changes to the old tree gives exactly the paths of the new one, each as Result says. */
  lemma ApplyExported(world: World, n: Tree, o: Tree, all: seq<Change>)
    requires TreeOk(n) && TreeOk(o) && Lists(n, o, all)
    ensures AfterLayer(world, o, Exported(n, all)).ok
    ensures var r := AfterLayer(world, o, Exported(n, all)).tree;
      TreeOk(r) && r.Keys == n.Keys && forall p :: p in n && p != "" ==> r[p] == Result(n, o, p)
  {
    hide Plain, BaseStart, Holds, Lists, TimesHeld, AfterEntries, CollectedAll, Result, StampAll, At, DirsOf;
    var layer := Exported(n, all);
    assert all[..|all|] == all;
    Replay(n, o, all, |all|);
    var t, s := AfterEntries(o, layer).tree, CollectedAll(map[], layer);
    HoldsNames(n, all, s);
    ExportStamps(world, o, layer, t, s);
    forall p | Plain(p)
      ensures p != "" && (p in t <==> p in n)
      ensures p in n ==> t[p] == Result(n, o, p)
    {
      PlainNoSlash(p);
      assert Get(t, p) == At(s, o, p);
      if p in n {
        ResultAt(n, o, all, s, p);
      } else {
        AbsentAt(n, o, all, s, p);
      }
    }
  }

  lemma HoldsNames(n: Tree, cs: seq<Change>, s: Files)
    requires Holds(n, cs, s)
    ensures NamesOk(s)
  {
    hide NamesOk;
  }

  lemma AbsentAt(n: Tree, o: Tree, all: seq<Change>, s: Files, p: string)
    requires TreeOk(n) && TreeOk(o) && Lists(n, o, all) && Holds(n, all, s) && Plain(p) && p !in n
    ensures At(s, o, p) == None
  {
    hide Plain, BaseStart, NamesOk, Landed, Hidden, FileEntry, Lists, TreeOk;
    if p in o {
      AbsentHidden(n, o, all, s, p);
    }
  }

  lemma ExportStamps(world: World, o: Tree, layer: seq<Header>, t: Tree, s: Files)
    requires TreeOk(t) && Represents(t, s, o) && TimesHeld(layer, s) && NamesOk(s)
    ensures StampAll(world, t, DirsOf(layer)) == Outcome(true, t)
  {
    hide Plain, BaseStart, TreeOk, Landed, CleanEntry, CleanName, Target, IsDirEntry, DirsOf, LastFor;
    var dirs := DirsOf(layer);
    forall q | LastFor(dirs, q).Some?
      ensures q in t && !t[q].kind.Symlink? && t[q] == t[q].WithTimes(LastFor(dirs, q).value.node)
    {
      LastForMember(dirs, q);
      DirEntry(LastFor(dirs, q).value);
      LandedTimes(s[q].node, Get(o, q));
      assert Get(t, q) == At(s, o, q);
    }
    DirectTimes(world, t, dirs);
    StampExact(world, t, dirs);
  }

  /** No directory of both trees loses a capability: applying a layer cannot take one away. */
  predicate KeepsDirCaps(n: Tree, o: Tree) {
    forall p :: p in n && p in o && n[p].IsDir() && o[p].IsDir() && n[p].cap == "" ==> o[p].cap == ""
  }

  lemma SameAsNew(n: Tree, o: Tree, p: string)
    requires TreeOk(n) && LinksOk(n) && p in n && p != ""
    ensures Differs(Result(n, o, p), n[p]) <==>
      p in o && n[p].IsDir() && o[p].IsDir() && n[p].cap == "" && o[p].cap != ""
    ensures Differs(n[p], Result(n, o, p)) <==> Differs(Result(n, o, p), n[p])
    ensures p !in o || Differs(o[p], n[p]) ==>
      Result(n, o, p).content == n[p].content && Result(n, o, p).nsec == 0
    ensures p in o && !Differs(o[p], n[p]) ==> Result(n, o, p) == o[p]
  {
    hide Plain, BaseStart;
  }

  /** Equal stat implies equal content. */
  ghost predicate StatTellsContent(n: Tree, o: Tree) {
    forall p | p in n && p in o && SameStat(o[p], n[p]) :: o[p].content == n[p].content
  }

  /** Equal but for nanoseconds that one time lacks, the size of directories, and contents. */
  predicate SameStat(a: Node, b: Node) {
    && a.kind == b.kind && a.perm == b.perm && a.uid == b.uid && a.gid == b.gid && a.cap == b.cap
    && (a.IsDir() || |a.content| == |b.content|)
    && a.sec == b.sec && (a.nsec == b.nsec || a.nsec == 0 || b.nsec == 0)
  }

  lemma UnchangedContent(n: Tree, o: Tree, p: string)
    requires StatTellsContent(n, o) && p in n && p in o && !Differs(o[p], n[p])
    ensures o[p].content == n[p].content
  {}

  // What is shown at a path of the new tree, field by field.
  lemma SameFields(n: Tree, o: Tree, p: string)
    requires TreeOk(n) && LinksOk(n) && p in n && p != ""
    ensures var x := Result(n, o, p);
      && x.kind == n[p].kind && x.perm == n[p].perm && x.uid == n[p].uid && x.gid == n[p].gid
      && (!n[p].IsDir() ==> |x.content| == |n[p].content|)
      && x.sec == n[p].sec && (x.nsec == n[p].nsec || x.nsec == 0 || n[p].nsec == 0)
      && (x.cap == n[p].cap || (p in o && o[p].IsDir() && n[p].IsDir() && n[p].cap == "" && o[p].cap != ""))
  {
    hide Plain, BaseStart, TreeOk;
    assert n[p].kind.Symlink? ==> n[p].perm == LINK_PERM;
  }

  /** Diff and apply undo each other: the changes between two trees, exported and applied to the old one, give a
      tree whose nodes agree with the new one's field by field, up to nanoseconds and lost capabilities; the two
      have no changes if and only if no directory of both trees loses a capability; and wherever equal stat implies
      equal content, the contents are the new tree's. */
  lemma DiffApplyRoundTrip(world: World, n: Tree, o: Tree, all: seq<Change>, again: seq<Change>)
    requires TreeOk(n) && TreeOk(o) && LinksOk(n) && Lists(n, o, all)
    ensures AfterLayer(world, o, Exported(n, all)).ok
    ensures var r := AfterLayer(world, o, Exported(n, all)).tree;
      && TreeOk(r) && r.Keys == n.Keys
      && (Lists(n, r, again) || Lists(r, n, again) ==> (again == [] <==> KeepsDirCaps(n, o)))
      && (StatTellsContent(n, o) ==> forall p :: p in n ==> r[p].content == n[p].content)
      && (forall p :: p in n ==>
        && r[p].kind == n[p].kind && r[p].perm == n[p].perm && r[p].uid == n[p].uid && r[p].gid == n[p].gid
        && (!n[p].IsDir() ==> |r[p].content| == |n[p].content|)
        && r[p].sec == n[p].sec && (r[p].nsec == n[p].nsec || r[p].nsec == 0 || n[p].nsec == 0)
        && (r[p].cap == n[p].cap || (p in o && o[p].IsDir() && n[p].IsDir() && n[p].cap == "" && o[p].cap != "")))
  {
    hide Plain, BaseStart, AfterLayer, Exported, Result, Differs, TreeOk, Lists, LinksOk, StatTellsContent;
    ApplyExported(world, n, o, all);
    var r := AfterLayer(world, o, Exported(n, all)).tree;
    forall p | p in n
      ensures p != "" && r[p] == Result(n, o, p)
      ensures Differs(r[p], n[p]) <==> p in o && n[p].IsDir() && o[p].IsDir() && n[p].cap == "" && o[p].cap != ""
      ensures Differs(n[p], r[p]) <==> Differs(r[p], n[p])
      ensures StatTellsContent(n, o) ==> r[p].content == n[p].content
    {
      TreeNames(n, p);
      SameAsNew(n, o, p);
      if StatTellsContent(n, o) && p in o && !Differs(o[p], n[p]) {
        UnchangedContent(n, o, p);
      }
    }
    forall p | p in n
      ensures r[p].kind == n[p].kind && r[p].perm == n[p].perm && r[p].uid == n[p].uid && r[p].gid == n[p].gid
      ensures !n[p].IsDir() ==> |r[p].content| == |n[p].content|
      ensures r[p].sec == n[p].sec && (r[p].nsec == n[p].nsec || r[p].nsec == 0 || n[p].nsec == 0)
      ensures r[p].cap == n[p].cap || (p in o && o[p].IsDir() && n[p].IsDir() && n[p].cap == "" && o[p].cap != "")
    {
      TreeNames(n, p);
      SameFields(n, o, p);
      assert r[p] == Result(n, o, p);
    }
    if Lists(n, r, again) {
      EmptyList(n, r, again);
    }
    if Lists(r, n, again) {
      EmptyList(r, n, again);
    }
  }

  lemma TreeNames(t: Tree, p: string)
    requires TreeOk(t) && p in t
    ensures p != ""
  {
    PlainNoSlash(p);
  }

  // With the same paths, only differing stat gives changes.
  lemma EmptyList(n: Tree, o: Tree, cs: seq<Change>)
    requires Lists(n, o, cs) && n.Keys == o.Keys
    ensures cs == [] <==> forall p :: p in n ==> !Differs(o[p], n[p])
  {
    hide Differs, Ordered;
    if cs != [] {
      assert cs[0] in cs;
      assert Expected(n, o, cs[0]);
      assert Differs(o[cs[0].path], n[cs[0].path]);
    } else {
      forall p | p in n
        ensures !Differs(o[p], n[p])
      {
        assert Change(p, Modify) !in cs;
      }
    }
  }
}
