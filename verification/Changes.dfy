/** The difference between two trees and the layer it is exported as (docker/archive/changes.go). Paths are kept without
    their leading slash; "" is the root. Map iteration takes the children in an arbitrary order.
  */
module Changes {
  import opened Wrappers
  import opened Names
  import opened FileTree
  import opened FileInfos

  datatype ChangeKind = Modify | Added | Delete

  datatype Change = Change(path: string, kind: ChangeKind)

  predicate SameFsTimeSpec(a: Node, b: Node) {
    a.sec == b.sec && (a.nsec == b.nsec || a.nsec == 0 || b.nsec == 0)
  }

  /** The stat comparison of addChanges: the size of a directory does not count. */
  predicate Differs(was: Node, now: Node) {
    || was.kind != now.kind || was.perm != now.perm || was.uid != now.uid || was.gid != now.gid
    || (|was.content| != |now.content| && !was.IsDir())
    || !SameFsTimeSpec(was, now)
    || was.cap != now.cap
  }

  function Children(t: Tree, path: string): set<string> {
    set q | q in t && Parent(q) == path
  }

  predicate Within(p: string, path: string) {
    path == "" || AtOrUnder(p, path)
  }

  /** What the change list must say of a path: added if only the new tree has it, modified if both have it and it
      differs, deleted if only the old tree has it while the directory it was in is still a directory. */
  predicate Expected(n: Tree, o: Tree, c: Change) {
    match c.kind
    case Added => c.path in n && c.path !in o
    case Modify => c.path in n && c.path in o && Differs(o[c.path], n[c.path])
    case Delete => c.path in o && c.path !in n && DirAt(n, Parent(c.path))
  }

  /** No path twice, and a path after every path above it. */
  ghost predicate Ordered(cs: seq<Change>) {
    forall i, j :: 0 <= i < j < |cs| ==> !AtOrUnder(cs[i].path, cs[j].path)
  }

  /** The changes to what lies beneath path, and to path itself when it is new. */
  ghost predicate ListsBelow(n: Tree, o: Tree, path: string, cs: seq<Change>) {
    && Ordered(cs)
    && forall c :: c in cs <==> Expected(n, o, c) && Within(c.path, path) && (c.path == path ==> c.kind == Added)
  }

  /** The exact list of changes between two trees. */
  ghost predicate Lists(n: Tree, o: Tree, cs: seq<Change>) {
    Ordered(cs) && forall c :: c in cs <==> Expected(n, o, c)
  }

  // ---- the recursion ----

  // Two children of a directory have nothing beneath them in common.
  lemma {:induction false} SiblingsApart(p: string, a: string, c: string)
    requires Plain(a) && Plain(c) && Parent(a) == Parent(c) && a != c
    requires AtOrUnder(p, a)
    ensures !AtOrUnder(p, c)
    decreases |p|
  {
    hide Plain, BaseStart, Under;
    UnderParent(p, a);
    UnderParent(p, c);
    if p == a {
      TopLevelParent(a);
      UnderParent(Parent(a), c);
      ParentNotUnder(c);
    } else if p == c {
      ParentNotUnder(a);
    } else if !TopLevel(p) {
      SiblingsApart(Parent(p), a, c);
    }
  }

  // The child of path that p is at or beneath.
  function Toward(p: string, path: string): (q: string)
    requires Plain(p) && Within(p, path) && p != path
    ensures Plain(q) && Parent(q) == path && AtOrUnder(p, q)
    decreases |p|
  {
    TowardStep(p, path);
    if Parent(p) == path then p
    else
      var q := Toward(Parent(p), path);
      TowardUp(p, q);
      q
  }

  lemma TowardStep(p: string, path: string)
    requires Plain(p) && Within(p, path) && p != path
    ensures Parent(p) == path || (Plain(Parent(p)) && Within(Parent(p), path) && |Parent(p)| < |p|)
  {
    hide BaseStart, Under;
    TopLevelParent(p);
    UnderParent(p, path);
  }

  lemma TowardUp(p: string, q: string)
    requires Plain(p) && !TopLevel(p) && AtOrUnder(Parent(p), q)
    ensures AtOrUnder(p, q)
  {
    UnderParent(p, q);
  }

  // ---- partial lists ----

  /** The changes to path itself, when it is new, and to what lies at or beneath the children done. */
  ghost predicate ListsSome(n: Tree, o: Tree, path: string, self: bool, done: set<string>, cs: seq<Change>) {
    && Ordered(cs)
    && forall c :: c in cs <==> Expected(n, o, c) && SomeScope(path, self, done, c)
  }

  ghost predicate SomeScope(path: string, self: bool, done: set<string>, c: Change) {
    Plain(c.path) && Within(c.path, path) &&
    if c.path == path then self && c.kind == Added else Toward(c.path, path) in done
  }

  lemma ExpectedPlain(n: Tree, o: Tree, c: Change)
    requires TreeOk(n) && TreeOk(o) && Expected(n, o, c)
    ensures Plain(c.path)
  {
    hide Plain;
  }

  lemma TowardIs(p: string, path: string, a: string)
    requires Plain(p) && Plain(a) && Parent(a) == path && AtOrUnder(p, a)
    ensures Within(p, path) && p != path && Toward(p, path) == a
  {
    hide Plain, BaseStart, Toward, Under;
    TopLevelParent(a);
    UnderParent(a, path);
    if path != "" && p != a {
      UnderTransitive(p, a, path);
    }
    ParentNotUnder(a);
    PlainNoSlash(p);
    var t := Toward(p, path);
    if t != a {
      SiblingsApart(p, a, t);
    }
  }

  lemma OrderedConcat(a: seq<Change>, b: seq<Change>)
    requires Ordered(a) && Ordered(b)
    requires forall x, y :: x in a && y in b ==> !AtOrUnder(x.path, y.path)
    ensures Ordered(a + b)
  {
    hide AtOrUnder;
    var ab := a + b;
    forall i, j | 0 <= i < j < |ab|
      ensures !AtOrUnder(ab[i].path, ab[j].path)
    {
      if i < |a| <= j {
        assert ab[i] in a && ab[j] in b;
      }
    }
  }

  lemma LongerNotAbove(x: string, y: string)
    requires |x| < |y|
    ensures !AtOrUnder(x, y)
  {}

  // The changes of one child more.
  lemma AppendChild(n: Tree, o: Tree, path: string, self: bool, done: set<string>, cs: seq<Change>, a: string,
                    more: seq<Change>)
    requires TreeOk(n) && TreeOk(o) && ListsSome(n, o, path, self, done, cs)
    requires Plain(a) && Parent(a) == path && a !in done
    requires Ordered(more) && forall c :: c in more <==> Expected(n, o, c) && AtOrUnder(c.path, a)
    ensures ListsSome(n, o, path, self, done + {a}, cs + more)
  {
    hide Plain, BaseStart, Expected, Toward, AtOrUnder, Within, Parent, TreeOk, Ordered;
    forall x, y | x in cs && y in more
      ensures !AtOrUnder(x.path, y.path)
    {
      ExpectedPlain(n, o, y);
      BelowOther(x.path, y.path, path, self, done, a, x);
    }
    OrderedConcat(cs, more);
    forall c
      ensures c in cs + more <==> Expected(n, o, c) && SomeScope(path, self, done + {a}, c)
    {
      if Expected(n, o, c) {
        ExpectedPlain(n, o, c);
        ScopeGrows(path, self, done, a, c);
      }
    }
  }

  lemma ScopeGrows(path: string, self: bool, done: set<string>, a: string, c: Change)
    requires Plain(c.path) && Plain(a) && Parent(a) == path
    ensures SomeScope(path, self, done + {a}, c) <==> SomeScope(path, self, done, c) || AtOrUnder(c.path, a)
  {
    hide Plain, BaseStart, Toward, AtOrUnder, Within, Parent;
    if AtOrUnder(c.path, a) {
      TowardIs(c.path, path, a);
    }
  }

  lemma BelowOther(x: string, y: string, path: string, self: bool, done: set<string>, a: string, c: Change)
    requires c.path == x && SomeScope(path, self, done, c) && Plain(y)
    requires Plain(a) && Parent(a) == path && a !in done && AtOrUnder(y, a)
    ensures !AtOrUnder(x, y)
  {
    hide Plain, BaseStart, Toward, Within;
    if x == path {
      PlainNoSlash(a);
      LongerNotAbove(x, y);
    } else if AtOrUnder(x, y) {
      if x != y && y != a {
        UnderTransitive(x, y, a);
      }
      TowardIs(x, path, a);
    }
  }

  // The change to a child itself, before those beneath it.
  lemma WithModify(n: Tree, o: Tree, a: string, sub: seq<Change>)
    requires TreeOk(n) && TreeOk(o) && a in n && a != "" && ListsBelow(n, o, a, sub)
    ensures var mod := if a in o && Differs(o[a], n[a]) then [Change(a, Modify)] else [];
      Ordered(mod + sub) && forall c :: c in mod + sub <==> Expected(n, o, c) && AtOrUnder(c.path, a)
  {
    hide Plain, BaseStart, AtOrUnder, Parent, TreeOk, Differs;
    var mod := if a in o && Differs(o[a], n[a]) then [Change(a, Modify)] else [];
    forall x, y | x in mod && y in sub
      ensures !AtOrUnder(x.path, y.path)
    {
      NotAboveChild(a, y.path);
    }
    OrderedConcat(mod, sub);
    SelfBelow(a);
    forall c
      ensures c in mod + sub <==> Expected(n, o, c) && AtOrUnder(c.path, a)
    {
      assert c in mod + sub <==> c in mod || c in sub;
    }
  }

  lemma NotAboveChild(a: string, y: string)
    requires AtOrUnder(y, a) && y != a
    ensures !AtOrUnder(a, y)
  {}

  lemma SelfBelow(a: string)
    ensures AtOrUnder(a, a)
  {}

  // The changes of a child both trees may have.
  lemma ChildDone(n: Tree, o: Tree, path: string, self: bool, done: set<string>, cs: seq<Change>, a: string,
                  sub: seq<Change>)
    requires TreeOk(n) && TreeOk(o) && ListsSome(n, o, path, self, done, cs)
    requires a in n && Plain(a) && Parent(a) == path && a !in done && a != "" && ListsBelow(n, o, a, sub)
    ensures var mod := if a in o && Differs(o[a], n[a]) then [Change(a, Modify)] else [];
      ListsSome(n, o, path, self, done + {a}, cs + (mod + sub))
  {
    hide Plain, BaseStart, Parent, Differs, AtOrUnder, TreeOk, ListsSome, ListsBelow, Expected;
    WithModify(n, o, a, sub);
    AppendChild(n, o, path, self, done, cs, a, (if a in o &&
      Differs(o[a], n[a]) then [Change(a, Modify)] else []) + sub);
  }

  // A child only the old tree has.
  lemma Gone(n: Tree, o: Tree, a: string)
    requires TreeOk(n) && TreeOk(o) && a in o && a !in n && DirAt(n, Parent(a))
    ensures Ordered([Change(a, Delete)])
    ensures forall c :: c in [Change(a, Delete)] <==> Expected(n, o, c) && AtOrUnder(c.path, a)
  {
    hide Plain, BaseStart, Parent;
    PlainNoSlash(a);
    forall c | Expected(n, o, c) && AtOrUnder(c.path, a)
      ensures c == Change(a, Delete)
    {
      OnlyItself(n, o, a, c);
    }
  }

  lemma OnlyItself(n: Tree, o: Tree, a: string, c: Change)
    requires TreeOk(n) && TreeOk(o) && a !in n && a != ""
    requires Expected(n, o, c) && AtOrUnder(c.path, a)
    ensures c == Change(a, Delete)
  {
    hide Plain, BaseStart, Parent, Differs;
    ExpectedPlain(n, o, c);
    if c.path != a {
      UnderParent(c.path, a);
      TopLevelParent(c.path);
      if c.path in n {
        AboveIsDir(n, c.path, a);
      } else if Parent(c.path) != a {
        AboveIsDir(n, Parent(c.path), a);
      }
    } else {
      SelfBelow(a);
    }
  }

  /** When every child of either tree is done, the list is complete. */
  lemma AllDone(n: Tree, o: Tree, path: string, hasOld: bool, done: set<string>, cs: seq<Change>)
    requires TreeOk(n) && TreeOk(o) && (path == "" || path in n) && (hasOld <==> path == "" || path in o)
    requires Children(n, path) <= done
    requires hasOld && DirAt(n, path) ==> Children(o, path) <= done
    requires ListsSome(n, o, path, !hasOld, done, cs)
    ensures ListsBelow(n, o, path, cs)
  {
    hide Plain, BaseStart, Parent, Toward, TreeOk, Ordered, Differs;
    forall c | Expected(n, o, c)
      ensures SomeScope(path, !hasOld, done, c) <==> Within(c.path, path) && (c.path == path ==> c.kind == Added)
    {
      ExpectedPlain(n, o, c);
      if Within(c.path, path) && c.path != path {
        TowardDone(n, o, path, hasOld, done, c);
      } else if c.path == path {
        PlainNoSlash(c.path);
      }
    }
  }

  lemma TowardDone(n: Tree, o: Tree, path: string, hasOld: bool, done: set<string>, c: Change)
    requires TreeOk(n) && TreeOk(o) && (hasOld <==> path == "" || path in o)
    requires Children(n, path) <= done
    requires hasOld && DirAt(n, path) ==> Children(o, path) <= done
    requires Expected(n, o, c) && Plain(c.path) && Within(c.path, path) && c.path != path
    ensures Toward(c.path, path) in done
  {
    hide Plain, BaseStart, Parent, Toward, Differs, Within;
    var a := Toward(c.path, path);
    PlainNoSlash(a);
    if a !in n {
      OnlyItself(n, o, a, c);
      assert DirAt(o, path);
    }
  }

  // ---- the objects at a path ----

  /** info is the object root has at path, and root shows the tree t. */
  ghost predicate FoundAt(root: FileInfo, t: Tree, path: string, info: FileInfo) {
    TreeOk(t) && Shows(root, t) && (path == "" || path in t) && Find(root, path) == Some(info)
  }

  function Paths(path: string, names: set<string>): set<string> {
    set c | c in names :: Join(path, c)
  }

  lemma JoinInjective(path: string, a: string, b: string)
    requires Join(path, a) == Join(path, b)
    ensures a == b
  {
    if path != "" {
      assert a == Join(path, a)[|path| + 1..] && b == Join(path, b)[|path| + 1..];
    }
  }

  lemma PathsLess(path: string, names: set<string>, c: string)
    requires c in names
    ensures Paths(path, names - {c}) == Paths(path, names) - {Join(path, c)}
    ensures Join(path, c) in Paths(path, names)
  {
    hide Join;
    forall a | a in names && a != c
      ensures Join(path, a) != Join(path, c)
    {
      if Join(path, a) == Join(path, c) {
        JoinInjective(path, a, c);
      }
    }
  }

  lemma ChildFound(root: FileInfo, t: Tree, path: string, info: FileInfo, c: string)
    requires FoundAt(root, t, path, info) && c in info.children
    ensures Join(path, c) in Children(t, path) && t[Join(path, c)] == info.children[c].node
    ensures FoundAt(root, t, Join(path, c), info.children[c])
  {
    hide BaseStart, Plain, Join, TreeOk;
    var q := Join(path, c);
    NamedFound(root, path);
    if path != "" {
      assert Plain(path) by {
        PathPlain(t, path);
      }
      PlainRelative(path);
    }
    JoinParts(path, c);
    assert Find(root, q) == Step(Find(root, Parent(q)), Base(q));
    assert NodeOf(Find(root, q)) == Get(t, q);
  }

  lemma PathPlain(t: Tree, path: string)
    requires TreeOk(t) && path in t
    ensures Plain(path)
  {}

  lemma ChildNamed(root: FileInfo, t: Tree, path: string, info: FileInfo, q: string)
    requires FoundAt(root, t, path, info) && q in Children(t, path)
    ensures Base(q) in info.children && Join(path, Base(q)) == q
  {
    hide BaseStart, Plain, TreeOk;
    PathPlain(t, q);
    PlainRelative(q);
    RelativeParent(q);
    assert NodeOf(Find(root, q)) == Get(t, q);
  }

  lemma AllChildren(root: FileInfo, t: Tree, path: string, info: FileInfo)
    requires FoundAt(root, t, path, info)
    ensures Paths(path, info.children.Keys) == Children(t, path)
  {
    hide BaseStart, Join, Base, Parent, FoundAt;
    forall q
      ensures q in Paths(path, info.children.Keys) <==> q in Children(t, path)
    {
      if q in Children(t, path) {
        ChildNamed(root, t, path, info, q);
      }
      if q in Paths(path, info.children.Keys) {
        var c :| c in info.children && q == Join(path, c);
        ChildFound(root, t, path, info, c);
      }
    }
  }

  /** The old tree has the child of that name just when its object, if it has one, does. */
  lemma OldChild(root: FileInfo, t: Tree, path: string, info: FileInfo, c: string)
    requires FoundAt(root, t, path, info)
    ensures Join(path, c) in Children(t, path) <==> c in info.children
  {
    hide BaseStart, Join, Base, FoundAt, Children;
    if Join(path, c) in Children(t, path) {
      ChildNamed(root, t, path, info, Join(path, c));
      JoinInjective(path, c, Base(Join(path, c)));
    }
    if c in info.children {
      ChildFound(root, t, path, info, c);
    }
  }

  /** FileInfo.addChanges: the changes to the object at path, when there is no old one, and to everything beneath
      it. Both objects are those that the trees n and o have at path. */
  method AddChanges(info: FileInfo, path: string, was: Option<FileInfo>, changes: seq<Change>,
                    ghost newRoot: FileInfo, ghost n: Tree, ghost oldRoot: FileInfo, ghost o: Tree)
    returns (r: seq<Change>)
    requires FoundAt(newRoot, n, path, info) && FoundAt(oldRoot, o, "", oldRoot)
    requires if was.Some? then FoundAt(oldRoot, o, path, was.value) else path != "" && path !in o
    ensures changes <= r && ListsBelow(n, o, path, r[|changes|..])
    decreases info
  {
    hide Plain, BaseStart, Parent, Toward, Differs, Within, AtOrUnder, TreeOk, ListsSome, ListsBelow, Expected;
    hide Find, Shows;
    hide Children, Paths, Join;
    r := changes;
    if was.None? {
      r := r + [Change(path, Added)];
    }
    StartList(n, o, path, was.Some?);
    assert r[|changes|..] == if was.Some? then [] else [Change(path, Added)];
    AllChildren(newRoot, n, path, info);
    RootDir(newRoot, n, path, info);
    var start := if was.Some? && (path == "" || info.node.IsDir()) then was.value.children else map[];
    var oldChildren := start;
    var rest := info.children.Keys;
    assert Children(n, path) - Paths(path, rest) == {};
    while rest != {}
      invariant Paths(path, rest) <= Children(n, path)
      invariant rest <= info.children.Keys && oldChildren == start - (info.children.Keys - rest)
      invariant changes <= r
      invariant ListsSome(n, o, path, was.None?, Children(n, path) - Paths(path, rest), r[|changes|..])
    {
      var name :| name in rest;
      ghost var before := r[|changes|..];
      ghost var done := Children(n, path) - Paths(path, rest);
      ghost var child := Join(path, name);
      PathsLess(path, rest, name);
      rest := rest - {name};
      assert Children(n, path) - Paths(path, rest) == done + {child};
      var newChild := info.children[name];
      var oldChild := if name in oldChildren then Some(oldChildren[name]) else None;
      SameChild(newRoot, n, oldRoot, o, path, info, was, name);
      if oldChild.Some? {
        if Differs(oldChild.value.node, newChild.node) {
          r := r + [Change(Join(path, name), Modify)];
        }
        oldChildren := oldChildren - {name};
      }
      ghost var mod := if child in o && Differs(o[child], n[child]) then [Change(child, Modify)] else [];
      ghost var sofar := r;
      assert sofar == changes + (before + mod);
      r := AddChanges(newChild, Join(path, name), oldChild, r, newRoot, n, oldRoot, o);
      ghost var sub := r[|sofar|..];
      ChildDone(n, o, path, was.None?, done, before, child, sub);
      AfterChanges(changes, before + mod, sofar, r);
      assert (before + mod) + sub == before + (mod + sub);
    }
    assert Paths(path, {}) == {} by {
      PathsNone(path);
    }
    assert Children(n, path) - {} == Children(n, path);
    MissingPaths(n, oldRoot, o, path, info, was, oldChildren.Keys);
    r := DeleteRest(n, o, path, was.None?, oldChildren.Keys, r, |changes|);
    AllDone(n, o, path, was.Some?, Children(n, path) + Paths(path, oldChildren.Keys), r[|changes|..]);
  }

  lemma AfterChanges(changes: seq<Change>, some: seq<Change>, sofar: seq<Change>, r: seq<Change>)
    requires sofar == changes + some && sofar <= r
    ensures changes <= r && r[|changes|..] == some + r[|sofar|..]
  {}

  lemma PathsNone(path: string)
    ensures Paths(path, {}) == {}
  {}

  lemma RootDir(root: FileInfo, t: Tree, path: string, info: FileInfo)
    requires FoundAt(root, t, path, info)
    ensures DirAt(t, path) <==> path == "" || info.node.IsDir()
  {
    hide BaseStart, Plain, Find;
    if path != "" {
      PathPlain(t, path);
      PlainRelative(path);
      assert NodeOf(Find(root, path)) == Get(t, path);
    }
  }

  // A child of that name in both trees.
  lemma SameChild(newRoot: FileInfo, n: Tree, oldRoot: FileInfo, o: Tree, path: string, info: FileInfo,
                  was: Option<FileInfo>, name: string)
    requires FoundAt(newRoot, n, path, info) && FoundAt(oldRoot, o, "", oldRoot) && name in info.children
    requires if was.Some? then FoundAt(oldRoot, o, path, was.value) else path != "" && path !in o
    ensures DirAt(n, path) && (path == "" || info.node.IsDir())
    ensures var child := Join(path, name);
      && child in n && Plain(child) && Parent(child) == path && child != "" && n[child] == info.children[name].node
      && FoundAt(newRoot, n, child, info.children[name])
      && (child in o <==> was.Some? && name in was.value.children)
      && (child in o ==> o[child] == was.value.children[name].node)
      && (child in o ==> FoundAt(oldRoot, o, child, was.value.children[name]))
  {
    hide BaseStart, Plain, Find, Shows, Join, Parent;
    var child := Join(path, name);
    ChildFound(newRoot, n, path, info, name);
    RootDir(newRoot, n, path, info);
    PlainNoSlash(child);
    if was.Some? {
      OldChild(oldRoot, o, path, was.value, name);
      if child in o {
        ChildFound(oldRoot, o, path, was.value, name);
      }
    }
  }

  lemma MissingPaths(n: Tree, oldRoot: FileInfo, o: Tree, path: string, info: FileInfo, was: Option<FileInfo>,
                     names: set<string>)
    requires Children(n, path) == Paths(path, info.children.Keys)
    requires was.Some? ==> FoundAt(oldRoot, o, path, was.value)
    requires names == if was.Some? && DirAt(n, path) then was.value.children.Keys - info.children.Keys else {}
    ensures Paths(path, names) !! Children(n, path)
    ensures was.Some? ==> Paths(path, names) <= Children(o, path)
    ensures names != {} ==> DirAt(n, path)
    ensures was.Some? && DirAt(n, path) ==> Children(o, path) <= Children(n, path) + Paths(path, names)
  {
    hide BaseStart, Join, Children, FoundAt;
    forall c | c in names
      ensures Join(path, c) !in Children(n, path)
    {
      if Join(path, c) in Children(n, path) {
        var d :| d in info.children && Join(path, c) == Join(path, d);
        JoinInjective(path, c, d);
      }
    }
    if was.Some? {
      AllChildren(oldRoot, o, path, was.value);
    }
  }

  // The loop over the children only the old object has.
  method DeleteRest(ghost n: Tree, ghost o: Tree, path: string, ghost self: bool, missing: set<string>,
                    changes: seq<Change>,
                    ghost from: nat)
    returns (r: seq<Change>)
    requires TreeOk(n) && TreeOk(o) && from <= |changes|
    requires Paths(path, missing) !! Children(n, path) && (missing != {} ==> Paths(path, missing) <= Children(o, path))
    requires missing != {} ==> DirAt(n, path)
    requires ListsSome(n, o, path, self, Children(n, path), changes[from..])
    ensures changes <= r && ListsSome(n, o, path, self, Children(n, path) + Paths(path, missing), r[from..])
  {
    hide Plain, BaseStart, Parent, AtOrUnder, TreeOk, ListsSome, Expected, Children, Paths, Join;
    r := changes;
    var rest := missing;
    ghost var all := Paths(path, missing);
    assert Children(n, path) + (all - Paths(path, rest)) == Children(n, path);
    while rest != {}
      invariant rest <= missing && changes <= r && Paths(path, rest) <= all
      invariant ListsSome(n, o, path, self, Children(n, path) + (all - Paths(path, rest)), r[from..])
    {
      var name :| name in rest;
      var gone := Join(path, name);
      ghost var before := r[from..];
      ghost var done := Children(n, path) + (all - Paths(path, rest));
      PathsLess(path, rest, name);
      GoneChild(n, o, path, gone);
      AppendChild(n, o, path, self, done, before, gone, [Change(gone, Delete)]);
      rest := rest - {name};
      assert Children(n, path) + (all - Paths(path, rest)) == done + {gone};
      r := r + [Change(gone, Delete)];
      assert r[from..] == before + [Change(gone, Delete)];
    }
    PathsNone(path);
    assert all - {} == all;
  }

  lemma StartList(n: Tree, o: Tree, path: string, hasOld: bool)
    requires TreeOk(n) && TreeOk(o) && (path == "" || path in n) && (hasOld <==> path == "" || path in o)
    ensures ListsSome(n, o, path, !hasOld, {}, if hasOld then [] else [Change(path, Added)])
  {
    hide BaseStart, Parent, Toward, Differs;
    forall c | Expected(n, o, c)
      ensures Plain(c.path) && c.path != ""
    {
      ExpectedPlain(n, o, c);
      PlainNoSlash(c.path);
    }
  }

  lemma GoneChild(n: Tree, o: Tree, path: string, gone: string)
    requires TreeOk(n) && TreeOk(o) && gone in Children(o, path) && gone !in Children(n, path) && DirAt(n, path)
    ensures Plain(gone) && Parent(gone) == path
    ensures Ordered([Change(gone, Delete)])
    ensures forall c :: c in [Change(gone, Delete)] <==> Expected(n, o, c) && AtOrUnder(c.path, gone)
  {
    hide Plain, BaseStart, Parent, Differs;
    Gone(n, o, gone);
  }

  /** FileInfo.Changes on two roots: the exact list, whatever the order of the maps. */
  method ChangesOf(newRoot: FileInfo, oldRoot: FileInfo, ghost n: Tree, ghost o: Tree) returns (cs: seq<Change>)
    requires TreeOk(n) && TreeOk(o) && Shows(newRoot, n) && Shows(oldRoot, o)
    ensures Lists(n, o, cs)
  {
    hide Shows;
    cs := AddChanges(newRoot, "", Some(oldRoot), [], newRoot, n, oldRoot, o);
    assert cs[0..] == cs;
    forall c | Expected(n, o, c)
      ensures c.path != ""
    {
      ExpectedPlain(n, o, c);
      PlainNoSlash(c.path);
    }
  }

  /** ChangesDirs: two walks, then the exact list of changes between the trees they visit. */
  method ChangesDirs(newWalk: seq<Walked>, oldWalk: seq<Walked>, ghost n: Tree, ghost o: Tree)
    returns (r: Option<seq<Change>>)
    requires TreeOk(n) && TreeOk(o) && WalkOf(newWalk, n) && WalkOf(oldWalk, o)
    ensures r.Some? && Lists(n, o, r.value)
  {
    hide TreeOk, Shows, Lists, OnceEach, ParentsFirst, TreeOf;
    WalkShown(newWalk, n);
    WalkShown(oldWalk, o);
    var oldRoot := CollectFileInfo(oldWalk);
    var newRoot := CollectFileInfo(newWalk);
    if oldRoot.None? || newRoot.None? {
      return None;
    }
    var cs := ChangesOf(newRoot.value, oldRoot.value, n, o);
    return Some(cs);
  }

  /** A path of both trees is listed as modified if and only if its kind, mode, owner or capability changed, or the
      size of what was no directory, or its seconds, or nanoseconds that both times have. */
  lemma ModifiedExactly(n: Tree, o: Tree, cs: seq<Change>, p: string)
    requires Lists(n, o, cs) && p in n && p in o
    ensures Change(p, Modify) in cs <==>
      || o[p].kind != n[p].kind || o[p].perm != n[p].perm || o[p].uid != n[p].uid || o[p].gid != n[p].gid
      || o[p].cap != n[p].cap
      || (o[p].kind != Directory && |o[p].content| != |n[p].content|)
      || o[p].sec != n[p].sec
      || (o[p].nsec != n[p].nsec && o[p].nsec != 0 && n[p].nsec != 0)
  {}

  lemma {:induction false} DistinctCount(cs: seq<Change>, c: Change)
    requires Ordered(cs)
    ensures multiset(cs)[c] == if c in cs then 1 else 0
  {
    if cs == [] {
    } else {
      var n := |cs| - 1;
      assert cs == cs[..n] + [cs[n]];
      DistinctCount(cs[..n], c);
    }
  }

  /** The order in which the maps are met only permutes the list. */
  lemma MapOrderOnlyPermutes(n: Tree, o: Tree, cs: seq<Change>, ds: seq<Change>)
    requires Lists(n, o, cs) && Lists(n, o, ds)
    ensures multiset(cs) == multiset(ds)
  {
    hide Expected, Ordered;
    forall c
      ensures multiset(cs)[c] == multiset(ds)[c]
    {
      DistinctCount(cs, c);
      DistinctCount(ds, c);
    }
  }
}
