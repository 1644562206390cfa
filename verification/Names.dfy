/** Slash-separated names, as the tar headers of a layer and the paths of a file tree spell them, and Go's path package
    on them.

    A clean name is relative, with no empty, "." or ".." component, so that path.Clean leaves it alone; on clean names
    path.Dir, path.Base and path.Join are the simpler functions Parent, Base and Wh. A string here is a string of bytes.
  */
module Names {

  const WH := ".wh."
  const AUFS := ".wh..wh."

  predicate HasPrefix(s: string, prefix: string) {
    prefix <= s
  }

  /** The index just after the last slash. */
  function BaseStart(s: string): (n: nat)
    ensures n <= |s|
    ensures n > 0 ==> s[n - 1] == '/'
    ensures forall k :: n <= k < |s| ==> s[k] != '/'
  {
    if s == "" then 0
    else if s[|s| - 1] == '/' then |s|
    else BaseStart(s[..|s| - 1])
  }

  function Base(s: string): string {
    s[BaseStart(s)..]
  }

  /** Everything up to and including the last slash. */
  function DirPart(s: string): string {
    s[..BaseStart(s)]
  }

  /** The directory a name is in; "" stands for the root. */
  function Parent(s: string): (p: string)
    ensures s != "" ==> |p| < |s|
  {
    if BaseStart(s) == 0 then "" else s[..BaseStart(s) - 1]
  }

  predicate TopLevel(s: string) {
    BaseStart(s) == 0
  }

  predicate OkComponent(c: string) {
    c != "" && c != "." && c != ".."
  }

  predicate Clean(s: string)
    decreases |s|
  {
    OkComponent(Base(s)) && (TopLevel(s) || Clean(Parent(s)))
  }

  /** A clean name none of whose components is a whiteout or aufs metadata. */
  predicate Plain(s: string)
    decreases |s|
  {
    OkComponent(Base(s)) && !HasPrefix(Base(s), WH) && (TopLevel(s) || Plain(Parent(s)))
  }

  /** The name of the whiteout that removes s. */
  function Wh(s: string): string {
    DirPart(s) + WH + Base(s)
  }

  /** q lies strictly beneath p. */
  predicate Under(q: string, p: string) {
    HasPrefix(q, p + "/")
  }

  predicate AtOrUnder(q: string, p: string) {
    q == p || Under(q, p)
  }

  // A slash-free tail is the base name.
  lemma {:induction false} BaseStartAppend(d: string, b: string)
    requires '/' !in b
    requires d == "" || d[|d| - 1] == '/'
    ensures BaseStart(d + b) == |d|
    decreases |b|
  {
    if b == "" {
      assert d + b == d;
    } else {
      var b' := b[..|b| - 1];
      assert (d + b)[..|d + b| - 1] == d + b';
      BaseStartAppend(d, b');
    }
  }

  lemma WhParts(s: string)
    ensures BaseStart(Wh(s)) == BaseStart(s)
    ensures DirPart(Wh(s)) == DirPart(s)
    ensures Base(Wh(s)) == WH + Base(s)
    ensures Parent(Wh(s)) == Parent(s)
    ensures TopLevel(Wh(s)) == TopLevel(s)
  {
    assert Wh(s) == DirPart(s) + (WH + Base(s));
    BaseStartAppend(DirPart(s), WH + Base(s));
  }

  lemma WhInjective(s: string, t: string)
    requires Wh(s) == Wh(t)
    ensures s == t
  {
    hide BaseStart;
    WhParts(s);
    WhParts(t);
    assert Base(s) == Base(Wh(s))[|WH|..];
    assert Base(t) == Base(Wh(t))[|WH|..];
    assert s == DirPart(s) + Base(s);
    assert t == DirPart(t) + Base(t);
  }

  lemma WhDistinct(s: string, t: string)
    requires s != t
    ensures Wh(s) != Wh(t)
  {
    if Wh(s) == Wh(t) {
      WhInjective(s, t);
    }
  }

  lemma WhNotPlain(s: string)
    ensures !Plain(Wh(s))
  {
    WhParts(s);
  }

  lemma PrefixCancel(a: string, b: string, c: string)
    ensures HasPrefix(a + c, a + b) <==> HasPrefix(c, b)
  {
    assert (a + c)[|a|..] == c && (a + b)[|a|..] == b;
  }

  lemma UnderTransitive(q: string, p: string, r: string)
    requires Under(q, p) && Under(p, r)
    ensures Under(q, r)
  {}

  /** The step up the ancestor chain: what is above q is its parent or above its parent. */
  lemma UnderParent(q: string, p: string)
    ensures Under(q, p) <==> !TopLevel(q) && AtOrUnder(Parent(q), p)
  {
    var n := BaseStart(q);
    if Under(q, p) {
      assert q[|p|] == '/';
      if |p| + 1 < n {
        assert Under(Parent(q), p);
      }
    }
    if n > 0 && Parent(q) == p {
      assert p + "/" == q[..n];
    }
  }

  lemma PlainParent(q: string)
    requires Plain(q) && !TopLevel(q)
    ensures Plain(Parent(q))
    ensures Under(q, Parent(q))
  {
    UnderParent(q, Parent(q));
  }

  lemma {:induction false} PlainAbove(q: string, p: string)
    requires Plain(q) && Under(q, p)
    ensures Plain(p)
    decreases |q|
  {
    UnderParent(q, p);
    if Parent(q) != p {
      PlainAbove(Parent(q), p);
    }
  }

  lemma PlainBase(s: string)
    requires Plain(s)
    ensures Base(s) != "" && !HasPrefix(Base(s), WH)
  {}

  /** A plain name never ends in a slash. */
  lemma PlainNoSlash(s: string)
    requires Plain(s)
    ensures s != "" && s[|s| - 1] != '/'
  {}

  lemma ParentNotUnder(p: string)
    requires Plain(p)
    ensures !AtOrUnder(Parent(p), p)
  {}

  lemma TopLevelParent(q: string)
    requires Plain(q)
    ensures TopLevel(q) <==> Parent(q) == ""
  {}

  // ---- package path ----

  /** strings.Split(s, "/") */
  function Split(s: string): seq<string>
    decreases |s|
  {
    if TopLevel(s) then [s] else Split(Parent(s)) + [Base(s)]
  }

  /** strings.Join(elems, "/") */
  function Joined(elems: seq<string>): string {
    if elems == [] then ""
    else if |elems| == 1 then elems[0]
    else Joined(elems[..|elems| - 1]) + "/" + elems[|elems| - 1]
  }

  /** The elements path.Clean keeps. */
  function CleanElems(elems: seq<string>, rooted: bool): seq<string> {
    if elems == [] then []
    else
      var before := CleanElems(elems[..|elems| - 1], rooted);
      var e := elems[|elems| - 1];
      if e == "" || e == "." then before
      else if e != ".." then before + [e]
      else if before != [] && before[|before| - 1] != ".." then before[..|before| - 1]
      else if rooted then before
      else before + [e]
  }

  function PathClean(s: string): string {
    var elems := CleanElems(Split(s), HasPrefix(s, "/"));
    if HasPrefix(s, "/") then "/" + Joined(elems)
    else if elems == [] then "."
    else Joined(elems)
  }

  function PathDir(s: string): string {
    PathClean(DirPart(s))
  }

  function TrimSlashes(s: string): string {
    if s != "" && s[|s| - 1] == '/' then TrimSlashes(s[..|s| - 1]) else s
  }

  function PathBase(s: string): string {
    if s == "" then "."
    else if TrimSlashes(s) == "" then "/"
    else Base(TrimSlashes(s))
  }

  /** path.Join of a directory, as PathDir gives it, and a name in it. */
  function PathJoin(dir: string, name: string): string {
    PathClean(dir + "/" + name)
  }

  lemma {:induction false} JoinedSplit(s: string)
    ensures Split(s) != [] && Joined(Split(s)) == s
    decreases |s|
  {
    if TopLevel(s) {
    } else {
      JoinedSplit(Parent(s));
      var elems := Split(s);
      assert elems[..|elems| - 1] == Split(Parent(s));
      assert s == Parent(s) + "/" + Base(s);
    }
  }

  lemma {:induction false} CleanKept(s: string)
    requires Clean(s)
    ensures CleanElems(Split(s), false) == Split(s) && !HasPrefix(s, "/")
    decreases |s|
  {
    var elems := Split(s);
    if TopLevel(s) {
      assert elems[..0] == [];
      assert Base(s) == s && s[0] != '/';
    } else {
      CleanKept(Parent(s));
      assert elems[..|elems| - 1] == Split(Parent(s));
      assert s[0] == Parent(s)[0];
    }
  }

  lemma PathDirIs(s: string)
    requires Clean(s)
    ensures PathDir(s) == if TopLevel(s) then "." else Parent(s)
  {
    hide Clean, CleanElems, Joined, Split;
    NothingKept();
    if !TopLevel(s) {
      var d := DirPart(s);
      assert d == Parent(s) + "/";
      BaseStartAppend(d, "");
      assert d + "" == d;
      CleanParent(s);
      SlashKept(Parent(s));
    }
  }

  lemma CleanParent(s: string)
    requires Clean(s) && !TopLevel(s)
    ensures Clean(Parent(s))
  {}

  lemma NothingKept()
    ensures PathClean("") == "."
  {
    assert Split("") == [""] && [""][..0] == [];
  }

  // A slash at the end goes.
  lemma SlashKept(p: string)
    requires Clean(p)
    ensures PathClean(p + "/") == p
  {
    hide Clean;
    var s := p + "/";
    BaseStartAppend(s, "");
    assert s + "" == s;
    assert Parent(s) == p && Base(s) == "";
    assert Split(s) == Split(p) + [""];
    assert Split(s)[..|Split(s)| - 1] == Split(p);
    CleanKept(p);
    JoinedSplit(p);
    assert s[0] == p[0];
  }

  lemma PathJoinIs(dir: string, name: string)
    requires (dir == "." || Clean(dir)) && OkComponent(name) && '/' !in name
    ensures PathJoin(dir, name) == if dir == "." then name else dir + "/" + name
  {
    hide BaseStart, Clean;
    var s := dir + "/" + name;
    BaseStartAppend(dir + "/", name);
    assert Parent(s) == dir && Base(s) == name;
    var elems := Split(s);
    assert elems[..|elems| - 1] == Split(dir);
    if dir == "." {
      DotDropped(name);
      assert elems == [".", name];
    } else {
      CleanKept(dir);
      JoinedSplit(dir);
      JoinedSplit(s);
      assert s[0] == dir[0];
    }
  }

  lemma DotDropped(name: string)
    requires OkComponent(name)
    ensures Split(".") == ["."]
    ensures Joined(CleanElems([".", name], false)) == name && CleanElems([".", name], false) == [name]
  {
    var elems := [".", name];
    assert elems[..1] == ["."] && elems[..1][..0] == [];
    assert CleanElems(elems[..1], false) == [];
  }

  lemma PathBaseIs(s: string)
    requires s != "" && s[|s| - 1] != '/'
    ensures PathBase(s) == Base(s)
  {}

  lemma {:induction false} PlainClean(s: string)
    requires Plain(s)
    ensures Clean(s)
    decreases |s|
  {
    if TopLevel(s) {
    } else {
      PlainClean(Parent(s));
    }
  }

  /** What layer.go computes for the whiteout of a path, and for the path a whiteout is about. */
  function WhPath(s: string): string {
    PathJoin(PathDir(s), WH + PathBase(s))
  }

  function Victim(s: string): string
    requires HasPrefix(PathBase(s), WH)
  {
    PathJoin(PathDir(s), PathBase(s)[|WH|..])
  }

  // A name put where s is.
  lemma PathJoinDir(s: string, name: string)
    requires Plain(s) && OkComponent(name) && '/' !in name
    ensures PathJoin(PathDir(s), name) == DirPart(s) + name
  {
    hide Plain, Clean, PathDir, PathJoin;
    PlainClean(s);
    PathDirIs(s);
    if TopLevel(s) {
      PathJoinIs(".", name);
      assert DirPart(s) + name == name;
    } else {
      PlainParent(s);
      PlainClean(Parent(s));
      assert Parent(s) != "." by {
        PlainComponent(Parent(s));
      }
      PathJoinIs(Parent(s), name);
      assert DirPart(s) == Parent(s) + "/";
    }
  }

  lemma WhPathIs(s: string)
    requires Plain(s)
    ensures WhPath(s) == Wh(s)
  {
    hide Plain, PathDir, PathJoin, PathBase, BaseStart;
    PlainNoSlash(s);
    PathBaseIs(s);
    assert OkComponent(WH + Base(s)) by {
      assert |WH + Base(s)| > 2;
    }
    PathJoinDir(s, WH + Base(s));
    assert DirPart(s) + (WH + Base(s)) == DirPart(s) + WH + Base(s);
  }

  lemma VictimIs(s: string)
    requires Plain(s)
    ensures PathBase(Wh(s)) == Base(Wh(s)) && HasPrefix(Base(Wh(s)), WH)
    ensures Victim(Wh(s)) == s
  {
    hide Plain, PathJoin, PathBase, BaseStart, PathClean;
    PlainNoSlash(s);
    PlainComponent(s);
    WhParts(s);
    WhEnd(s);
    PathBaseIs(Wh(s));
    PathJoinDir(s, Base(s));
    assert PathBase(Wh(s))[|WH|..] == Base(s);
    assert DirPart(s) + Base(s) == s;
  }

  lemma PlainComponent(s: string)
    requires Plain(s)
    ensures OkComponent(Base(s))
  {}

  lemma WhEnd(s: string)
    requires Plain(s)
    ensures Wh(s) != "" && Wh(s)[|Wh(s)| - 1] != '/'
  {
    hide BaseStart;
    PlainNoSlash(s);
    assert Wh(s)[|Wh(s)| - 1] == s[|s| - 1];
  }

  // ---- names that are not clean ----

  lemma DotParts(s: string)
    ensures !TopLevel("./" + s) && Base("./" + s) == Base(s) && DirPart("./" + s) == "./" + DirPart(s)
    ensures Parent("./" + s) == if TopLevel(s) then "." else "./" + Parent(s)
  {
    hide BaseStart;
    var n := BaseStart(s);
    assert "./" + s == ("./" + s[..n]) + s[n..];
    BaseStartTail(s);
    BaseStartAppend("./" + s[..n], s[n..]);
  }

  lemma BaseStartTail(s: string)
    ensures BaseStart(s) > 0 ==> s[BaseStart(s) - 1] == '/'
    ensures '/' !in s[BaseStart(s)..]
  {}

  lemma {:induction false} SplitDot(s: string)
    ensures Split("./" + s) == ["."] + Split(s)
    decreases |s|
  {
    hide BaseStart, Base, DirPart;
    DotParts(s);
    if TopLevel(s) {
      WholeBase(s);
      DotAlone();
    } else {
      ParentIsShorter(s);
      SplitDot(Parent(s));
    }
  }

  lemma ParentIsShorter(s: string)
    requires !TopLevel(s)
    ensures |Parent(s)| < |s|
  {}

  lemma WholeBase(s: string)
    requires TopLevel(s)
    ensures Base(s) == s
  {}

  lemma DotAlone()
    ensures Split(".") == ["."]
  {}

  lemma {:induction false} ElemsDot(elems: seq<string>)
    ensures CleanElems(["."] + elems, false) == CleanElems(elems, false)
  {
    var all := ["."] + elems;
    if elems == [] {
      assert all[..0] == [];
    } else {
      assert all[..|all| - 1] == ["."] + elems[..|elems| - 1];
      ElemsDot(elems[..|elems| - 1]);
    }
  }

  /** A leading "./" goes. */
  lemma CleanDot(s: string)
    requires !HasPrefix(s, "/")
    ensures PathClean("./" + s) == PathClean(s)
  {
    SplitDot(s);
    ElemsDot(Split(s));
  }

  /** A name and ".." after it cancel. */
  lemma CleanDotDot(elems: seq<string>, name: string, rooted: bool)
    requires OkComponent(name)
    ensures CleanElems(elems + [name, ".."], rooted) == CleanElems(elems, rooted)
  {
    var all := elems + [name, ".."];
    assert all[..|all| - 1] == elems + [name];
    assert (elems + [name])[..|elems|] == elems;
  }

  /** So layer.go finds what it looks for also under a name with a leading "./". */
  lemma DottedPath(p: string)
    requires Plain(p)
    ensures WhPath("./" + p) == Wh(p)
    ensures HasPrefix(PathBase("./" + Wh(p)), WH) && Victim("./" + Wh(p)) == p
  {
    hide BaseStart, Plain, PathJoin, PathClean, PathBase;
    PlainNoSlash(p);
    WhEnd(p);
    WhParts(p);
    DotParts(p);
    DotParts(Wh(p));
    WhPathIs(p);
    VictimIs(p);
    PathBaseIs(p);
    PathBaseIs("./" + p);
    PathBaseIs(Wh(p));
    PathBaseIs("./" + Wh(p));
    NoSlashFirst(p);
    CleanDot(DirPart(p));
  }

  lemma NoSlashFirst(p: string)
    requires Plain(p)
    ensures !HasPrefix(DirPart(p), "/")
  {
    PlainClean(p);
    CleanKept(p);
  }
}
