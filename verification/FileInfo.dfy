/** The trees of FileInfo objects that a walk of a directory builds (FileInfo, LookUp and collectFileInfo in
    docker/archive/changes.go), as values: putting a child into the children of an object that LookUp found is the
    function Replace, which rebuilds what is above it.
  */
module FileInfos {
  import opened Wrappers
  import opened Names
  import opened FileTree

  datatype FileInfo = FileInfo(node: Node, children: map<string, FileInfo>)

  const ROOT := FileInfo(Node(Directory, 0, 0, 0, "", 0, 0, ""), map[])

  function Step(at: Option<FileInfo>, name: string): Option<FileInfo> {
    if at.Some? && name in at.value.children then Some(at.value.children[name]) else None
  }

  /** What is at a relative path beneath root. */
  function Find(root: FileInfo, p: string): Option<FileInfo>
    decreases |p|
  {
    if p == "" then Some(root) else Step(Find(root, Parent(p)), Base(p))
  }

  predicate Relative(p: string) {
    p != "" && p[0] != '/'
  }

  predicate Named(info: FileInfo) {
    forall c :: c in info.children ==> c != "" && '/' !in c && Named(info.children[c])
  }

  function NodeOf(at: Option<FileInfo>): Option<Node> {
    if at.Some? then Some(at.value.node) else None
  }

  /** The objects beneath root are the paths of t. */
  ghost predicate Shows(root: FileInfo, t: Tree) {
    Named(root) && forall p :: Relative(p) ==> NodeOf(Find(root, p)) == Get(t, p)
  }

  // ---- relative paths ----

  lemma {:induction false} PlainRelative(p: string)
    requires Plain(p)
    ensures Relative(p)
    decreases |p|
  {
    if TopLevel(p) {
    } else {
      PlainRelative(Parent(p));
    }
  }

  lemma RelativeParent(p: string)
    requires Relative(p)
    ensures TopLevel(p) <==> Parent(p) == ""
    ensures Parent(p) != "" ==> Relative(Parent(p))
    ensures p == Join(Parent(p), Base(p))
  {}

  /** filepath.Join of a directory and a name */
  function Join(dir: string, name: string): string {
    if dir == "" then name else dir + "/" + name
  }

  lemma JoinParts(dir: string, name: string)
    requires (dir == "" || Relative(dir)) && name != "" && '/' !in name
    ensures Relative(Join(dir, name)) && Parent(Join(dir, name)) == dir && Base(Join(dir, name)) == name
  {
    if dir == "" {
      BaseStartAppend("", name);
      assert "" + name == name;
    } else {
      BaseStartAppend(dir + "/", name);
    }
  }

  // ---- LookUp ----

  lemma {:induction false} SplitSlash(p: string)
    ensures Split("/" + p) == [""] + Split(p)
    decreases |p|
  {
    hide BaseStart, Base, Parent, TopLevel;
    SlashParts(p);
    NoParts();
    if TopLevel(p) {
    } else {
      ParentShorter(p);
      SplitSlash(Parent(p));
    }
  }

  lemma NoParts()
    ensures TopLevel("") && Parent("") == "" && Base("") == ""
  {}

  lemma ParentShorter(p: string)
    requires !TopLevel(p)
    ensures |Parent(p)| < |p|
  {}

  lemma SlashParts(p: string)
    ensures !TopLevel("/" + p) && Base("/" + p) == Base(p)
    ensures Parent("/" + p) == if TopLevel(p) then "" else "/" + Parent(p)
    ensures TopLevel(p) ==> Base(p) == p
  {
    hide BaseStart;
    var n := BaseStart(p);
    assert "/" + p == ("/" + p[..n]) + p[n..];
    BaseStartLast(p);
    BaseStartAppend("/" + p[..n], p[n..]);
  }

  lemma BaseStartLast(p: string)
    ensures BaseStart(p) > 0 ==> p[BaseStart(p) - 1] == '/'
    ensures '/' !in Base(p)
  {}

  // Following the elements of a split path; empty ones are skipped.
  function Follow(at: Option<FileInfo>, elems: seq<string>): Option<FileInfo> {
    if elems == [] then at
    else
      var before := Follow(at, elems[..|elems| - 1]);
      var e := elems[|elems| - 1];
      if e == "" then before else Step(before, e)
  }

  lemma {:induction false} FollowNone(at: Option<FileInfo>, elems: seq<string>, i: nat)
    requires i <= |elems| && Follow(at, elems[..i]).None?
    ensures Follow(at, elems).None?
    decreases |elems|
  {
    if i == |elems| {
      assert elems[..i] == elems;
    } else {
      assert elems[..|elems| - 1][..i] == elems[..i];
      FollowNone(at, elems[..|elems| - 1], i);
    }
  }

  lemma {:induction false} FollowSlash(at: Option<FileInfo>, elems: seq<string>)
    ensures Follow(at, [""] + elems) == Follow(at, elems)
  {
    var all := [""] + elems;
    if elems == [] {
      assert all[..0] == [];
    } else {
      assert all[..|all| - 1] == [""] + elems[..|elems| - 1];
      FollowSlash(at, elems[..|elems| - 1]);
    }
  }

  lemma {:induction false} FollowFinds(root: FileInfo, p: string)
    requires Plain(p)
    ensures Follow(Some(root), Split(p)) == Find(root, p)
    decreases |p|
  {
    var elems := Split(p);
    PlainNoSlash(p);
    TopLevelParent(p);
    if TopLevel(p) {
      assert elems[..0] == [];
    } else {
      FollowFinds(root, Parent(p));
      assert elems[..|elems| - 1] == Split(Parent(p));
    }
  }

  /** LookUp of a rooted path finds what is at that path. */
  method LookUp(root: FileInfo, path: string) returns (r: Option<FileInfo>)
    ensures r == Follow(Some(root), Split(path))
    ensures forall p :: Plain(p) && path == "/" + p ==> r == Find(root, p)
    ensures path == "/" ==> r == Some(root)
  {
    hide BaseStart, Plain, Split;
    forall p | Plain(p) && path == "/" + p
      ensures Follow(Some(root), Split(path)) == Find(root, p)
    {
      PlainNoSlash(p);
      SplitSlash(p);
      FollowSlash(Some(root), Split(p));
      FollowFinds(root, p);
    }
    RootSplit(root);
    if path == "/" {
      return Some(root);
    }
    var elems := Split(path);
    var parent := root;
    for i := 0 to |elems|
      invariant Follow(Some(root), elems[..i]) == Some(parent)
    {
      assert elems[..i + 1][..i] == elems[..i];
      if elems[i] != "" {
        if elems[i] !in parent.children {
          FollowNone(Some(root), elems, i + 1);
          return None;
        }
        parent := parent.children[elems[i]];
      }
    }
    assert elems[..|elems|] == elems;
    return Some(parent);
  }

  lemma RootSplit(root: FileInfo)
    ensures Follow(Some(root), Split("/")) == Some(root)
  {
    hide BaseStart, Base, Parent, TopLevel;
    SlashParts("");
    NoParts();
    assert "/" + "" == "/";
    assert Split("/") == ["", ""];
    var none, one, two: seq<string> := [], [""], ["", ""];
    assert one[..0] == none && two[..1] == one;
    assert Follow(Some(root), one) == Some(root);
  }

  // ---- putting a child in ----

  function Replace(root: FileInfo, p: string, info: FileInfo): FileInfo
    requires p != "" ==> Find(root, Parent(p)).Some?
    decreases |p|
  {
    if p == "" then info
    else
      var dir := Find(root, Parent(p)).value;
      Replace(root, Parent(p), dir.(children := dir.children[Base(p) := info]))
  }

  lemma {:induction false} ReplaceFinds(root: FileInfo, p: string, info: FileInfo)
    requires p != "" ==> Find(root, Parent(p)).Some?
    ensures Find(Replace(root, p, info), p) == Some(info)
    decreases |p|
  {
    if p == "" {
    } else {
      var dir := Find(root, Parent(p)).value;
      ReplaceFinds(root, Parent(p), dir.(children := dir.children[Base(p) := info]));
    }
  }

  // Where p is neither at nor above q, nothing changes but the children of what is above p.
  lemma {:induction false} ReplaceElsewhere(root: FileInfo, p: string, info: FileInfo, q: string)
    requires Relative(p) && Find(root, Parent(p)).Some?
    requires q == "" || (Relative(q) && !AtOrUnder(q, p))
    ensures NodeOf(Find(Replace(root, p, info), q)) == NodeOf(Find(root, q))
    ensures q != "" && !Under(p, q) ==> Find(Replace(root, p, info), q) == Find(root, q)
    decreases |p|, |q|
  {
    hide BaseStart, Under;
    var d := Parent(p);
    var dir := Find(root, d).value;
    var dir' := dir.(children := dir.children[Base(p) := info]);
    var root' := Replace(root, p, info);
    RelativeParent(p);
    ReplaceFinds(root, d, dir');
    if q == d {
      UnderParent(p, d);
    } else if d != "" && (q == "" || !AtOrUnder(q, d)) {
      ReplaceElsewhere(root, d, dir', q);
      if q != "" {
        UnderParent(p, q);
      }
    } else {
      RelativeParent(q);
      UnderParent(q, p);
      if Parent(q) == d {
        assert Base(q) != Base(p);
      } else {
        NotAbove(p, q, d);
        ReplaceElsewhere(root, p, info, Parent(q));
      }
    }
  }

  // Something beneath the directory of p, but not in it, is not above p, and neither is its parent.
  lemma NotAbove(p: string, q: string, d: string)
    requires Relative(p) && Relative(q) && d == Parent(p) && Parent(q) != d && (d == "" || Under(q, d))
    ensures !Under(p, q) && Parent(q) != "" && !Under(p, Parent(q))
    ensures d != "" ==> Under(Parent(q), d)
  {
    hide BaseStart, Under;
    RelativeParent(p);
    RelativeParent(q);
    UnderParent(p, q);
    UnderParent(p, Parent(q));
    UnderParent(q, d);
    SelfNotUnder(d);
    if d != "" {
      UnderLonger(q, d);
    }
    if AtOrUnder(d, Parent(q)) && d != "" {
      UnderLonger(d, Parent(q));
      UnderLonger(Parent(q), d);
    }
    if AtOrUnder(d, q) && d != "" {
      UnderLonger(d, q);
    }
  }

  lemma UnderLonger(q: string, p: string)
    requires AtOrUnder(q, p)
    ensures q == p || |q| > |p|
  {}

  lemma {:induction false} NothingBelowLeaf(root: FileInfo, p: string, q: string)
    requires Relative(p) && Relative(q) && Under(q, p) && Find(root, p).Some? && Find(root, p).value.children == map[]
    ensures Find(root, q).None?
    decreases |q|
  {
    hide BaseStart, Under;
    RelativeParent(q);
    UnderParent(q, p);
    if Parent(q) != p {
      NothingBelowLeaf(root, p, Parent(q));
    }
  }

  lemma {:induction false} NoneBelowNone(root: FileInfo, p: string, q: string)
    requires Relative(p) && Relative(q) && Under(q, p) && Find(root, p).None?
    ensures Find(root, q).None?
    decreases |q|
  {
    hide BaseStart, Under;
    RelativeParent(q);
    UnderParent(q, p);
    if Parent(q) != p {
      NoneBelowNone(root, p, Parent(q));
    }
  }

  lemma {:induction false} NamedFound(root: FileInfo, p: string)
    requires Named(root) && Find(root, p).Some?
    ensures Named(Find(root, p).value)
    decreases |p|
  {
    if p == "" {
    } else {
      NamedFound(root, Parent(p));
    }
  }

  lemma {:induction false} NamedReplace(root: FileInfo, p: string, info: FileInfo)
    requires Named(root) && Named(info) && (p == "" || (Relative(p) && Base(p) != "" && Find(root, Parent(p)).Some?))
    requires p != "" ==> NoEmptyAbove(p)
    ensures Named(Replace(root, p, info))
    decreases |p|
  {
    if p == "" {
    } else {
      var dir := Find(root, Parent(p)).value;
      NamedFound(root, Parent(p));
      RelativeParent(p);
      var dir' := dir.(children := dir.children[Base(p) := info]);
      NamedReplace(root, Parent(p), dir');
    }
  }

  predicate NoEmptyAbove(p: string)
    decreases |p|
  {
    p == "" || (Base(p) != "" && NoEmptyAbove(Parent(p)))
  }

  lemma {:induction false} PlainNoEmpty(p: string)
    requires Plain(p)
    ensures NoEmptyAbove(p)
    decreases |p|
  {
    TopLevelParent(p);
    if TopLevel(p) {
    } else {
      PlainNoEmpty(Parent(p));
    }
  }

  /** A new object without children at p shows the tree with p added. */
  lemma ShowsAdded(root: FileInfo, t: Tree, p: string, node: Node)
    requires Shows(root, t) && Plain(p) && p !in t && Find(root, Parent(p)).Some?
    ensures Shows(Replace(root, p, FileInfo(node, map[])), t[p := node])
  {
    hide BaseStart, Plain, Find, Replace, Under, Named;
    var leaf := FileInfo(node, map[]);
    var root' := Replace(root, p, leaf);
    PlainRelative(p);
    PlainNoSlash(p);
    PlainNoEmpty(p);
    PlainBase(p);
    LeafNamed(leaf);
    NamedReplace(root, p, leaf);
    ReplaceFinds(root, p, leaf);
    forall q | Relative(q)
      ensures NodeOf(Find(root', q)) == Get(t[p := node], q)
    {
      assert NodeOf(Find(root, q)) == Get(t, q) && NodeOf(Find(root, p)) == Get(t, p);
      if Under(q, p) {
        NothingBelowLeaf(root', p, q);
        NoneBelowNone(root, p, q);
        SelfNotUnder(p);
      } else if q != p {
        ReplaceElsewhere(root, p, leaf, q);
      }
    }
  }

  lemma SelfNotUnder(p: string)
    ensures !Under(p, p)
  {}

  lemma LeafNamed(leaf: FileInfo)
    requires leaf.children == map[]
    ensures Named(leaf)
  {}

  // ---- collectFileInfo ----

  datatype Walked = Walked(path: string, node: Node)

  function TreeOf(walk: seq<Walked>): Tree {
    if walk == [] then map[]
    else TreeOf(walk[..|walk| - 1])[walk[|walk| - 1].path := walk[|walk| - 1].node]
  }

  /** The paths of a walk, none twice. */
  ghost predicate OnceEach(walk: seq<Walked>) {
    && (forall w :: w in walk ==> Plain(w.path))
    && forall i, j :: 0 <= i < j < |walk| ==> walk[i].path != walk[j].path
  }

  ghost predicate ParentsFirst(walk: seq<Walked>) {
    forall i :: 0 <= i < |walk| ==> Parent(walk[i].path) == "" || Parent(walk[i].path) in TreeOf(walk[..i])
  }

  lemma {:induction false} TreeOfKeys(walk: seq<Walked>, p: string)
    ensures p in TreeOf(walk) <==> exists w :: w in walk && w.path == p
  {
    if walk == [] {
    } else {
      var n := |walk| - 1;
      assert walk == walk[..n] + [walk[n]];
      TreeOfKeys(walk[..n], p);
      assert walk[n] in walk;
    }
  }

  lemma {:induction false} RootShows()
    ensures Shows(ROOT, map[])
  {
    hide BaseStart;
    forall p | Relative(p)
      ensures Find(ROOT, p).None?
    {
      EmptyFinds(p);
    }
  }

  lemma {:induction false} EmptyFinds(p: string)
    requires Relative(p)
    ensures Find(ROOT, p).None?
    decreases |p|
  {
    hide BaseStart;
    RelativeParent(p);
    if Parent(p) != "" {
      EmptyFinds(Parent(p));
    }
  }

  /** The objects of a walk show its tree; it fails just when a path comes before the directory it is in. */
  method CollectFileInfo(walk: seq<Walked>) returns (r: Option<FileInfo>)
    requires OnceEach(walk)
    ensures r.Some? <==> ParentsFirst(walk)
    ensures r.Some? ==> Shows(r.value, TreeOf(walk))
  {
    hide BaseStart, Plain, Find, Replace, Shows, Split, Follow, Parent;
    var root := ROOT;
    RootShows();
    for i := 0 to |walk|
      invariant Shows(root, TreeOf(walk[..i]))
      invariant forall j :: 0 <= j < i ==> Parent(walk[j].path) == "" || Parent(walk[j].path) in TreeOf(walk[..j])
    {
      var p := walk[i].path;
      assert walk[i] in walk;
      ParentShown(root, TreeOf(walk[..i]), p);
      var parent := LookUp(root, "/" + Parent(p));
      if parent.None? {
        return None;
      }
      assert walk[..i + 1][..i] == walk[..i];
      NewPath(walk, i);
      ShowsAdded(root, TreeOf(walk[..i]), p, walk[i].node);
      root := Replace(root, p, FileInfo(walk[i].node, map[]));
    }
    assert walk[..|walk|] == walk;
    return Some(root);
  }

  lemma ParentShown(root: FileInfo, t: Tree, p: string)
    requires Shows(root, t) && Plain(p)
    ensures Parent(p) == "" || Plain(Parent(p))
    ensures Parent(p) == "" ==> "/" + Parent(p) == "/" && Find(root, Parent(p)).Some?
    ensures Parent(p) != "" ==> (Find(root, Parent(p)).Some? <==> Parent(p) in t)
  {
    hide BaseStart;
    TopLevelParent(p);
    if Parent(p) != "" {
      PlainRelative(Parent(p));
      assert NodeOf(Find(root, Parent(p))) == Get(t, Parent(p));
    }
  }

  lemma NewPath(walk: seq<Walked>, i: nat)
    requires OnceEach(walk) && i < |walk|
    ensures walk[i].path !in TreeOf(walk[..i])
  {
    TreeOfKeys(walk[..i], walk[i].path);
  }

  /** walk visits every path of t, a directory before what is in it. */
  ghost predicate WalkOf(walk: seq<Walked>, t: Tree) {
    && OnceEach(walk)
    && (forall w :: w in walk ==> w.path in t && t[w.path] == w.node)
    && (forall p :: p in t ==> exists w :: w in walk && w.path == p)
    && forall i, j :: 0 <= i < |walk| && 0 <= j < |walk| && Parent(walk[i].path) == walk[j].path ==> j < i
  }

  lemma WalkShown(walk: seq<Walked>, t: Tree)
    requires TreeOk(t) && WalkOf(walk, t)
    ensures ParentsFirst(walk) && TreeOf(walk) == t
  {
    hide BaseStart, Plain, Parent, TreeOf;
    forall i | 0 <= i < |walk| && Parent(walk[i].path) != ""
      ensures Parent(walk[i].path) in TreeOf(walk[..i])
    {
      assert walk[i] in walk && DirAt(t, Parent(walk[i].path));
      var w :| w in walk && w.path == Parent(walk[i].path);
      var j :| 0 <= j < |walk| && walk[j] == w;
      assert walk[..i][j] == w;
      TreeOfKeys(walk[..i], w.path);
    }
    forall p
      ensures p in TreeOf(walk) <==> p in t
    {
      TreeOfKeys(walk, p);
    }
    TreeOfNodes(walk, t);
  }

  lemma {:induction false} TreeOfNodes(walk: seq<Walked>, t: Tree)
    requires forall w :: w in walk ==> w.path in t && t[w.path] == w.node
    ensures forall p :: p in TreeOf(walk) ==> p in t && TreeOf(walk)[p] == t[p]
  {
    if walk == [] {
    } else {
      TreeOfNodes(walk[..|walk| - 1], t);
    }
  }
}
