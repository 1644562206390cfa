/** A file tree and the reference meaning of a layer: what ApplyLayer (docker/archive/diff.go) does to the
    directory it is given.

    A tree maps each path beneath the directory to what is there. A link is followed only where ApplyLayer ends by
    following one, to set the times of directories; where it leads is a parameter.
  */
module FileTree {
  import opened Wrappers
  import opened Names

  datatype Kind = Directory | Regular | Symlink

  /** What lstat and the security.capability attribute show ("" when the attribute is absent), with the
      bytes of a file or the target of a link. */
  datatype Node = Node(kind: Kind, perm: nat, uid: int, gid: int, cap: string, sec: int, nsec: int, content: string)
  {
    predicate IsDir() {
      kind == Directory
    }

    function WithTimes(other: Node): Node {
      this.(sec := other.sec, nsec := other.nsec)
    }
  }

  datatype TarHeader = TarHeader(name: string, node: Node, size: int)
  {
    predicate IsDir() {
      node.IsDir()
    }
  }

  // The name of a tar entry is never empty.
  type Header = h: TarHeader | h.name != "" witness TarHeader("a", Node(Regular, 0, 0, 0, "", 0, 0, ""), 0)

  type Tree = map<string, Node>

  datatype Outcome = Outcome(ok: bool, tree: Tree)

  // The directories MkdirAll makes for an entry whose parent is missing have mode 0600.
  const MADE := Node(Directory, 0x180, 0, 0, "", 0, 0, "")
  const LINK_PERM: nat := 0x1ff

  function Get(t: Tree, p: string): Option<Node> {
    if p in t then Some(t[p]) else None
  }

  predicate DirAt(t: Tree, p: string) {
    p == "" || (p in t && t[p].IsDir())
  }

  /** Every path is clean, is no whiteout, and lies in directories of the tree. */
  ghost predicate TreeOk(t: Tree) {
    && (forall p {:trigger Plain(p)} :: p in t ==> Plain(p))
    && forall p {:trigger Parent(p)} :: p in t ==> DirAt(t, Parent(p))
  }

  // filepath.Clean on a clean name that may have the trailing slash of a directory entry
  function CleanName(s: string): string {
    if |s| > 1 && s[|s| - 1] == '/' then s[..|s| - 1] else s
  }

  /** os.RemoveAll */
  function Prune(t: Tree, p: string): Tree {
    map q | q in t && !AtOrUnder(q, p) :: t[q]
  }

  // lstat of a missing path fails with "does not exist" exactly when its nearest existing ancestor is a directory.
  predicate NearestIsDir(t: Tree, p: string)
    decreases |p|
  {
    p == "" || if p in t then t[p].IsDir() else NearestIsDir(t, Parent(p))
  }

  function MkdirAll(t: Tree, p: string): Tree
    decreases |p|
  {
    if p == "" || p in t then t else MkdirAll(t, Parent(p))[p := MADE]
  }

  predicate ParentMissing(t: Tree, name: string) {
    Parent(name) != "" && Parent(name) !in t && NearestIsDir(t, Parent(name))
  }

  /** What the whiteout of a name is about: the directory itself when nothing follows the prefix. */
  function Original(name: string): string
    requires HasPrefix(Base(name), WH)
  {
    if Base(name) == WH then Parent(name) else DirPart(name) + Base(name)[|WH|..]
  }

  /** os.RemoveAll of a path beneath the directory, or of the directory. */
  function Removed(t: Tree, p: string): Tree {
    if p == "" then map[] else Prune(t, p)
  }

  /** What createTarFile leaves where there was nothing, or a directory to merge with: a link has no mode of
      its own to set, and attributes the header does not name stay on a merged directory. */
  function Landed(n: Node, was: Option<Node>): Node {
    var perm := if n.kind.Symlink? then LINK_PERM else n.perm;
    var cap := if n.cap == "" && n.IsDir() && was.Some? && was.value.IsDir() then was.value.cap else n.cap;
    n.(perm := perm, cap := cap)
  }

  /** One turn of the loop over the entries of a layer. */
  function AfterEntry(t: Tree, h: Header): Outcome {
    var name := CleanName(h.name);
    var t0 := if ParentMissing(t, name) then MkdirAll(t, Parent(name)) else t;
    if HasPrefix(name, AUFS) then
      Outcome(true, t0)
    else if HasPrefix(Base(name), WH) then
      Outcome(true, Removed(t0, Original(name)))
    else
      var t1 := if name in t0 && !(t0[name].IsDir() && h.IsDir()) then Prune(t0, name) else t0;
      if !DirAt(t1, Parent(name)) then Outcome(false, t1)
      else Outcome(true, t1[name := Landed(h.node, Get(t1, name))])
  }

  function AfterEntries(t: Tree, layer: seq<Header>): Outcome {
    if layer == [] then Outcome(true, t)
    else
      var o := AfterEntries(t, layer[..|layer| - 1]);
      if o.ok then AfterEntry(o.tree, layer[|layer| - 1]) else o
  }

  predicate IsDirEntry(h: Header) {
    h.IsDir() && !HasPrefix(CleanName(h.name), AUFS) && !HasPrefix(Base(CleanName(h.name)), WH)
  }

  /** The directory entries of a layer, whose times are set again at the end. */
  function DirsOf(layer: seq<Header>): seq<Header> {
    if layer == [] then []
    else DirsOf(layer[..|layer| - 1]) + if IsDirEntry(layer[|layer| - 1]) then [layer[|layer| - 1]] else []
  }

  /** Where a path leads when links are followed: to another path of the tree, to something else that exists, or to
      nothing. */
  datatype Followed = Inside(path: string) | Outside | Missing

  /** Where the kernel ends at a path that goes through a link of the tree. Targets may be absolute or climb out of the
      directory, so that depends on the machine; it does not depend on the times in the tree. */
  type World = (Tree, string) -> Followed

  /** The nearest thing there is at or above p is a link. */
  predicate ThroughLink(t: Tree, p: string)
    decreases |p|
  {
    p != "" && if p in t then t[p].kind.Symlink? else ThroughLink(t, Parent(p))
  }

  function Leads(world: World, t: Tree, p: string): (f: Followed)
    ensures f.Inside? ==> f.path in t
  {
    if ThroughLink(t, p) then
      var f := world(t, p);
      if f.Inside? && (f.path !in t || t[f.path].kind.Symlink?) then Missing else f
    else if p in t then Inside(p)
    else Missing
  }

  /** Sets the times of what each entry's path leads to; utimensat(2) follows links. */
  function StampAll(world: World, t: Tree, dirs: seq<Header>): (o: Outcome)
    ensures o.tree.Keys == t.Keys
  {
    if dirs == [] then Outcome(true, t)
    else
      var o := StampAll(world, t, dirs[..|dirs| - 1]);
      var h := dirs[|dirs| - 1];
      if !o.ok then o
      else
        match Leads(world, t, CleanName(h.name))
        case Missing => Outcome(false, o.tree)
        case Outside => o
        case Inside(q) => Outcome(true, o.tree[q := o.tree[q].WithTimes(h.node)])
  }

  function AfterLayer(world: World, t: Tree, layer: seq<Header>): Outcome {
    var o := AfterEntries(t, layer);
    if o.ok then StampAll(world, o.tree, DirsOf(layer)) else o
  }

  /** The layers of a stack one after another, lowest first. */
  function AfterLayers(world: World, t: Tree, layers: seq<seq<Header>>): Outcome {
    if layers == [] then Outcome(true, t)
    else
      var o := AfterLayers(world, t, layers[..|layers| - 1]);
      if o.ok then AfterLayer(world, o.tree, layers[|layers| - 1]) else o
  }

  lemma {:induction false} EntriesFailureSticks(t: Tree, layer: seq<Header>, i: nat)
    requires i <= |layer| && !AfterEntries(t, layer[..i]).ok
    ensures AfterEntries(t, layer) == AfterEntries(t, layer[..i])
    decreases |layer|
  {
    if i == |layer| {
      assert layer[..i] == layer;
    } else {
      assert layer[..|layer| - 1][..i] == layer[..i];
      EntriesFailureSticks(t, layer[..|layer| - 1], i);
    }
  }

  lemma {:induction false} StampFailureSticks(world: World, t: Tree, dirs: seq<Header>, i: nat)
    requires i <= |dirs| && !StampAll(world, t, dirs[..i]).ok
    ensures StampAll(world, t, dirs) == StampAll(world, t, dirs[..i])
    decreases |dirs|
  {
    if i == |dirs| {
      assert dirs[..i] == dirs;
    } else {
      assert dirs[..|dirs| - 1][..i] == dirs[..i];
      StampFailureSticks(world, t, dirs[..|dirs| - 1], i);
    }
  }

  /** The directory a layer is applied to. */
  class Dest {
    var tree: Tree
    const world: World

    constructor (world: World, t: Tree)
      ensures this.world == world && tree == t
    {
      this.world := world;
      tree := t;
    }

    method ApplyLayer(layer: seq<Header>) returns (ok: bool)
      modifies this
      ensures Outcome(ok, tree) == AfterLayer(world, old(tree), layer)
    {
      hide AfterEntry, IsDirEntry, CleanName, Leads;
      var dirs: seq<Header> := [];
      var i := 0;
      while i < |layer|
        invariant 0 <= i <= |layer|
        invariant AfterEntries(old(tree), layer[..i]) == Outcome(true, tree)
        invariant dirs == DirsOf(layer[..i])
      {
        var hdr := layer[i];
        assert layer[..i + 1][..i] == layer[..i];
        var entryOk := ApplyOne(hdr);
        i := i + 1;
        if !entryOk {
          EntriesFailureSticks(old(tree), layer, i);
          return false;
        }
        if IsDirEntry(hdr) {
          dirs := dirs + [hdr];
        }
      }
      assert layer[..i] == layer;
      var applied := tree;
      var j := 0;
      while j < |dirs|
        invariant 0 <= j <= |dirs|
        invariant StampAll(world, applied, dirs[..j]) == Outcome(true, tree)
      {
        assert dirs[..j + 1][..j] == dirs[..j];
        var lead := Leads(world, applied, CleanName(dirs[j].name));
        if lead.Missing? {
          StampFailureSticks(world, applied, dirs, j + 1);
          return false;
        }
        if lead.Inside? {
          tree := tree[lead.path := tree[lead.path].WithTimes(dirs[j].node)];
        }
        j := j + 1;
      }
      assert dirs[..j] == dirs;
      return true;
    }

    method ApplyOne(hdr: Header) returns (ok: bool)
      modifies this
      ensures Outcome(ok, tree) == AfterEntry(old(tree), hdr)
    {
      var name := CleanName(hdr.name);
      if ParentMissing(tree, name) {
        tree := MkdirAll(tree, Parent(name));
      }
      if HasPrefix(name, AUFS) {
        return true;
      }
      if HasPrefix(Base(name), WH) {
        tree := Removed(tree, Original(name));
        return true;
      }
      if name in tree && !(tree[name].IsDir() && hdr.IsDir()) {
        tree := Prune(tree, name);
      }
      if !DirAt(tree, Parent(name)) {
        return false;
      }
      tree := tree[name := Landed(hdr.node, Get(tree, name))];
      return true;
    }
  }

  // ---- trees ----

  lemma {:induction false} AboveIsDir(t: Tree, q: string, p: string)
    requires TreeOk(t) && q in t && Under(q, p)
    ensures p in t && t[p].IsDir()
    decreases |q|
  {
    UnderParent(q, p);
    PlainAbove(q, p);
    if Parent(q) != p {
      AboveIsDir(t, Parent(q), p);
    }
  }

  // ---- entries in any tree ----

  /** lstat shows every link with the same mode. */
  predicate LinksOk(t: Tree) {
    forall p :: p in t && t[p].kind.Symlink? ==> t[p].perm == LINK_PERM
  }

  lemma {:induction false} LinksMade(t: Tree, p: string)
    requires LinksOk(t)
    ensures LinksOk(MkdirAll(t, p))
    decreases |p|
  {
    if p == "" || p in t {
    } else {
      LinksMade(t, Parent(p));
    }
  }

  lemma {:induction false} LinksStamped(world: World, t: Tree, dirs: seq<Header>)
    requires LinksOk(t)
    ensures LinksOk(StampAll(world, t, dirs).tree)
  {
    hide Leads, CleanName;
    if dirs == [] {
    } else {
      LinksStamped(world, t, dirs[..|dirs| - 1]);
    }
  }

  lemma {:induction false} LinksEntries(t: Tree, layer: seq<Header>)
    requires LinksOk(t)
    ensures LinksOk(AfterEntries(t, layer).tree)
  {
    hide CleanName;
    if layer == [] {
    } else {
      var before, h := layer[..|layer| - 1], layer[|layer| - 1];
      LinksEntries(t, before);
      LinksMade(AfterEntries(t, before).tree, Parent(CleanName(h.name)));
    }
  }

  /** And ApplyLayer makes every link so, whatever mode its header names and whether or not it fails. */
  lemma LinksKept(world: World, t: Tree, layer: seq<Header>)
    requires LinksOk(t)
    ensures LinksOk(AfterLayer(world, t, layer).tree)
  {
    hide AfterEntries, StampAll, DirsOf;
    LinksEntries(t, layer);
    LinksStamped(world, AfterEntries(t, layer).tree, DirsOf(layer));
  }

  /** Metadata of aufs at the top of a layer has no effect. */
  lemma MetadataSkipped(t: Tree, h: Header)
    requires HasPrefix(CleanName(h.name), AUFS)
    ensures AfterEntry(t, h).ok
    ensures forall q :: q in t ==> q in AfterEntry(t, h).tree && AfterEntry(t, h).tree[q] == t[q]
    ensures !ParentMissing(t, CleanName(h.name)) ==> AfterEntry(t, h).tree == t
  {
    if ParentMissing(t, CleanName(h.name)) {
      MadeKeeps(t, Parent(CleanName(h.name)));
    }
  }

  lemma {:induction false} MadeKeeps(t: Tree, p: string)
    ensures forall q :: q in t ==> q in MkdirAll(t, p) && MkdirAll(t, p)[q] == t[q]
    decreases |p|
  {
    if p == "" || p in t {
    } else {
      MadeKeeps(t, Parent(p));
    }
  }

  /** Making the directories above a path makes all that are missing, and nothing else. */
  lemma {:induction false} MadeExactly(t: Tree, p: string)
    requires TreeOk(t) && (p == "" || Plain(p)) && NearestIsDir(t, p)
    ensures var t' := MkdirAll(t, p);
      && TreeOk(t') && DirAt(t', p)
      && (forall q :: q in t' <==> q in t || (Plain(q) && AtOrUnder(p, q)))
      && (forall q :: q in t' && q !in t ==> t'[q] == MADE)
      && MADE.IsDir() && MADE.perm == 6 * 64  // octal 0600
    decreases |p|
  {
    hide BaseStart;
    if p == "" {
    } else if p in t {
      forall q | Plain(q) && Under(p, q)
        ensures q in t
      {
        AboveIsDir(t, p, q);
      }
    } else {
      PlainNoSlash(p);
      TopLevelParent(p);
      if !TopLevel(p) {
        PlainParent(p);
      }
      MadeExactly(t, Parent(p));
      MadeStep(t, MkdirAll(t, Parent(p)), p);
    }
  }

  lemma MadeStep(t: Tree, t': Tree, p: string)
    requires Plain(p) && p !in t && TreeOk(t') && DirAt(t', Parent(p))
    requires forall q :: q in t' <==> q in t || (Plain(q) && AtOrUnder(Parent(p), q))
    requires forall q :: q in t' && q !in t ==> t'[q] == MADE
    ensures TreeOk(t'[p := MADE])
    ensures forall q :: q in t'[p := MADE] <==> q in t || (Plain(q) && AtOrUnder(p, q))
    ensures forall q :: q in t'[p := MADE] && q !in t ==> t'[p := MADE][q] == MADE
  {
    hide Plain, BaseStart, Parent, TopLevel, Under;
    ParentNotUnder(p);
    TopLevelParent(p);
    if Plain("") {
      PlainNoSlash("");
    }
    forall q | Plain(q)
      ensures AtOrUnder(p, q) <==> q == p || AtOrUnder(Parent(p), q)
    {
      UnderParent(p, q);
      PlainNoSlash(q);
      EmptyIsUnderNone(q);
    }
  }

  lemma EmptyIsUnderNone(q: string)
    ensures !Under("", q)
  {}

  // ---- setting the times of directories again ----

  /** The last entry for a path. */
  function LastFor(dirs: seq<Header>, q: string): Option<Header> {
    if dirs == [] then None
    else if CleanName(dirs[|dirs| - 1].name) == q then Some(dirs[|dirs| - 1])
    else LastFor(dirs[..|dirs| - 1], q)
  }

  lemma {:induction false} LastForMember(dirs: seq<Header>, q: string)
    requires LastFor(dirs, q).Some?
    ensures LastFor(dirs, q).value in dirs && CleanName(LastFor(dirs, q).value.name) == q
  {
    if CleanName(dirs[|dirs| - 1].name) == q {
    } else {
      LastForMember(dirs[..|dirs| - 1], q);
    }
  }

  lemma {:induction false} SomeLast(dirs: seq<Header>, h: Header)
    requires h in dirs
    ensures LastFor(dirs, CleanName(h.name)).Some?
  {
    if CleanName(dirs[|dirs| - 1].name) == CleanName(h.name) {
    } else {
      assert h in dirs[..|dirs| - 1];
      SomeLast(dirs[..|dirs| - 1], h);
    }
  }

  /** The last entry whose path leads to q. */
  function LastAt(world: World, t: Tree, dirs: seq<Header>, q: string): Option<Header> {
    if dirs == [] then None
    else if Leads(world, t, CleanName(dirs[|dirs| - 1].name)) == Inside(q) then Some(dirs[|dirs| - 1])
    else LastAt(world, t, dirs[..|dirs| - 1], q)
  }

  ghost predicate NoneMissing(world: World, t: Tree, dirs: seq<Header>) {
    forall h :: h in dirs ==> !Leads(world, t, CleanName(h.name)).Missing?
  }

  /** The times that count are those of the last entry that leads to a path. */
  lemma {:induction false} StampMeaning(world: World, t: Tree, dirs: seq<Header>)
    requires NoneMissing(world, t, dirs)
    ensures StampAll(world, t, dirs).ok
    ensures forall q :: q in t ==>
      StampAll(world, t, dirs).tree[q] ==
        if LastAt(world, t, dirs, q).Some? then t[q].WithTimes(LastAt(world, t, dirs, q).value.node) else t[q]
  {
    hide CleanName, Leads;
    if dirs == [] {
    } else {
      StampMeaning(world, t, dirs[..|dirs| - 1]);
      assert dirs[|dirs| - 1] in dirs;
    }
  }

  /** Every path of dirs leads somewhere, and what it leads to in t shows the times of the last entry that does. */
  ghost predicate ShowsTimes(world: World, t: Tree, dirs: seq<Header>) {
    && NoneMissing(world, t, dirs)
    && forall q {:trigger LastAt(world, t, dirs, q)} :: q in t && LastAt(world, t, dirs, q).Some? ==>
      t[q] == t[q].WithTimes(LastAt(world, t, dirs, q).value.node)
  }

  // Stamping fails at a path that leads nowhere.
  lemma {:induction false} StampInside(world: World, t: Tree, dirs: seq<Header>)
    requires StampAll(world, t, dirs).ok
    ensures NoneMissing(world, t, dirs)
  {
    hide CleanName, Leads;
    if dirs == [] {
    } else {
      StampInside(world, t, dirs[..|dirs| - 1]);
      assert dirs == dirs[..|dirs| - 1] + [dirs[|dirs| - 1]];
    }
  }

  /** Stamping changes nothing, and does not fail, if and only if the tree already shows the times. */
  lemma StampExact(world: World, t: Tree, dirs: seq<Header>)
    ensures StampAll(world, t, dirs) == Outcome(true, t) <==> ShowsTimes(world, t, dirs)
  {
    hide CleanName, LastAt, Leads, NoneMissing;
    var o := StampAll(world, t, dirs);
    if o.ok {
      StampInside(world, t, dirs);
    }
    if NoneMissing(world, t, dirs) {
      StampMeaning(world, t, dirs);
      if ShowsTimes(world, t, dirs) {
        assert forall q :: q in t ==> o.tree[q] == t[q];
      } else {
        var q :| q in t && LastAt(world, t, dirs, q).Some? &&
          t[q] != t[q].WithTimes(LastAt(world, t, dirs, q).value.node);
        assert o.tree[q] != t[q];
      }
    }
  }

  /** Links do not matter when what is at the path of every entry is none. */
  lemma DirectTimes(world: World, t: Tree, dirs: seq<Header>)
    requires forall q :: LastFor(dirs, q).Some? ==>
      q in t && !t[q].kind.Symlink? && t[q] == t[q].WithTimes(LastFor(dirs, q).value.node)
    ensures ShowsTimes(world, t, dirs)
  {
    hide CleanName, LastFor, LastAt, Leads;
    forall h | h in dirs
      ensures Leads(world, t, CleanName(h.name)) == Inside(CleanName(h.name))
    {
      SomeLast(dirs, h);
      LeadsDirectly(world, t, CleanName(h.name));
    }
    forall q | LastAt(world, t, dirs, q).Some?
      ensures LastAt(world, t, dirs, q) == LastFor(dirs, q)
    {
      DirectLast(world, t, dirs, q);
    }
  }

  /** A directory entry at whose path a link stands sets the times of what the link leads to, fails when that is
      nothing, and leaves the tree as it is when that is outside. */
  lemma LinkStamped(world: World, t: Tree, h: Header, p: string)
    requires CleanName(h.name) == p && p != "" && p in t && t[p].kind.Symlink?
    ensures world(t, p) == Missing ==> !StampAll(world, t, [h]).ok
    ensures world(t, p) == Outside ==> StampAll(world, t, [h]) == Outcome(true, t)
    ensures forall q :: world(t, p) == Inside(q) && q in t && !t[q].kind.Symlink? ==>
      StampAll(world, t, [h]) == Outcome(true, t[q := t[q].(sec := h.node.sec, nsec := h.node.nsec)])
  {
    hide CleanName;
    assert [h][..0] == [];
    assert StampAll(world, t, []) == Outcome(true, t);
  }

  lemma LeadsDirectly(world: World, t: Tree, p: string)
    requires p in t && !t[p].kind.Symlink?
    ensures Leads(world, t, p) == Inside(p)
  {}

  lemma {:induction false} DirectLast(world: World, t: Tree, dirs: seq<Header>, q: string)
    requires forall h :: h in dirs ==> Leads(world, t, CleanName(h.name)) == Inside(CleanName(h.name))
    ensures LastAt(world, t, dirs, q) == LastFor(dirs, q)
  {
    hide CleanName, Leads;
    if dirs == [] {
    } else {
      assert dirs[|dirs| - 1] in dirs;
      DirectLast(world, t, dirs[..|dirs| - 1], q);
    }
  }
}
