/** What a squashed layer collects (layer.go): from any headers as the code does it, and in terms of paths when
    their names are clean.
  */
module Collect {
  import opened Names
  import opened FileTree

  /** The entries of the squashed layer by key: the path of an addition, the name of a whiteout. */
  type Files = map<string, Header>

  predicate IsWhiteout(h: Header) {
    !h.IsDir() && HasPrefix(Base(h.name), WH) && !HasPrefix(Base(h.name), AUFS)
  }

  /** The path an entry is about. */
  function Target(h: Header): string {
    if h.IsDir() then CleanName(h.name)
    else if IsWhiteout(h) then DirPart(h.name) + Base(h.name)[|WH|..]
    else h.name
  }

  /** A clean entry: a plain path, the path with a slash for a directory, or the whiteout of a plain path. */
  predicate CleanEntry(h: Header) {
    Plain(Target(h)) &&
    h.name == if h.IsDir() then Target(h) + "/" else if IsWhiteout(h) then Wh(Target(h)) else Target(h)
  }

  /** The entry that adds x at p. */
  function Addition(p: string, x: Node, size: int): Header
    requires p != ""
  {
    TarHeader(if x.IsDir() then p + "/" else p, x, size)
  }

  /** The entry that removes p. */
  function Whiteout(p: string): Header {
    TarHeader(Wh(p), Node(Regular, 0, 0, 0, "", 0, 0, ""), 0)
  }

  /** The header removes something, as layer.go tells from its name. */
  predicate IsDeletion(h: Header) {
    !h.IsDir() && HasPrefix(PathBase(h.name), WH) && !HasPrefix(PathBase(h.name), AUFS)
  }

  function Undelete(s: Files, path: string): Files {
    s - {WhPath(path)}
  }

  /** One turn of the loop of Layer.Apply. */
  function Collected(s: Files, h: Header): Files {
    if h.IsDir() then
      var short := h.name[..|h.name| - 1];
      Undelete(s, short)[short := h]
    else if !IsDeletion(h) then
      Undelete(s, h.name)[h.name := h]
    else
      var victim := Victim(h.name);
      if victim !in s then s[h.name := h]
      else if s[victim].IsDir() then map k | k in s && !HasPrefix(s[k].name, s[victim].name) :: s[k]
      else s - {s[victim].name}
  }

  function CollectedAll(s: Files, layer: seq<Header>): Files {
    if layer == [] then s else Collected(CollectedAll(s, layer[..|layer| - 1]), layer[|layer| - 1])
  }

  function CollectedLayers(layers: seq<seq<Header>>): Files {
    if layers == [] then map[] else CollectedAll(CollectedLayers(layers[..|layers| - 1]), layers[|layers| - 1])
  }

  // ---- the invariants of the collected map ----

  predicate FiledUnder(s: Files, k: string)
    requires k in s
  {
    var h := s[k];
    CleanEntry(h) && k == if IsWhiteout(h) then Wh(Target(h)) else Target(h)
  }

  /** Every header is filed under its own name less the slash of a directory, and a path and its whiteout are
      never both there. */
  ghost predicate NamesOk(s: Files) {
    && (forall k :: k in s ==> FiledUnder(s, k))
    && (forall k {:trigger Wh(k)} :: k in s && Plain(k) ==> Wh(k) !in s)
  }

  // What ApplyLayer removes for the whiteout of a plain path.
  lemma OriginalIs(p: string)
    requires Plain(p)
    ensures HasPrefix(Base(Wh(p)), WH) && Original(Wh(p)) == p && p != ""
    ensures forall t :: Removed(t, p) == Prune(t, p)
  {
    hide Plain, BaseStart;
    PlainBase(p);
    PlainNoSlash(p);
    WhParts(p);
    assert (WH + Base(p))[|WH|..] == Base(p) && DirPart(p) + Base(p) == p;
  }

  lemma CleanEntryParts(h: Header)
    requires CleanEntry(h)
    ensures IsWhiteout(h) ==> Target(h) == DirPart(h.name) + Base(h.name)[|WH|..] && !Plain(h.name)
    ensures h.IsDir() ==> h.name[..|h.name| - 1] == Target(h)
    ensures Parent(CleanName(h.name)) == Parent(Target(h))
    ensures IsDirEntry(h) == h.IsDir()
    ensures !HasPrefix(CleanName(h.name), AUFS)
    ensures HasPrefix(Base(CleanName(h.name)), WH) == IsWhiteout(h)
    ensures CleanName(h.name) == if IsWhiteout(h) then Wh(Target(h)) else Target(h)
  {
    var p := Target(h);
    WhParts(p);
    PlainNoSlash(p);
    NotAufs(p);
    if IsWhiteout(h) {
      assert h.name[|h.name| - 1] == Base(p)[|Base(p)| - 1];
      assert CleanName(h.name) == h.name;
    } else if h.IsDir() {
      assert h.name[..|h.name| - 1] == p;
    }
  }

  lemma AdditionClean(p: string, x: Node, size: int)
    requires Plain(p)
    ensures p != ""
    ensures CleanEntry(Addition(p, x, size)) && Target(Addition(p, x, size)) == p && !IsWhiteout(Addition(p, x, size))
    ensures Addition(p, x, size).node == x
  {
    hide Plain, BaseStart, Wh;
    PlainBase(p);
    PlainNoSlash(p);
    assert x.IsDir() ==> (p + "/")[..|p|] == p;
  }

  lemma WhiteoutClean(p: string)
    requires Plain(p)
    ensures CleanEntry(Whiteout(p)) && Target(Whiteout(p)) == p && IsWhiteout(Whiteout(p))
  {
    hide Plain, BaseStart, Wh;
    var c := Base(p);
    PlainBase(p);
    WhParts(p);
    assert AUFS == WH + WH;
    PrefixCancel(WH, WH, c);
    assert (WH + c)[|WH|..] == c && DirPart(p) + c == p;
  }

  // A slash-free prefix of a name that has a parent is a prefix of the parent.
  lemma PrefixOfParent(p: string, w: string)
    requires !TopLevel(p) && HasPrefix(p, w) && '/' !in w
    ensures HasPrefix(Parent(p), w)
  {
    assert p[BaseStart(p) - 1] == '/';
  }

  // Neither a plain name nor its whiteout begins like aufs metadata.
  lemma {:induction false} NotWhiteout(p: string)
    requires Plain(p)
    ensures !HasPrefix(p, WH)
    decreases |p|
  {
    if TopLevel(p) {
      assert Base(p) == p;
    } else {
      NotWhiteout(Parent(p));
      if HasPrefix(p, WH) {
        PrefixOfParent(p, WH);
      }
    }
  }

  lemma NotAufs(p: string)
    requires Plain(p)
    ensures !HasPrefix(p, AUFS) && !HasPrefix(p, WH) && !HasPrefix(Wh(p), AUFS)
  {
    hide Plain, BaseStart;
    NotWhiteout(p);
    WhParts(p);
    assert AUFS == WH + WH;
    assert HasPrefix(p, AUFS) ==> HasPrefix(p, WH);
    if TopLevel(p) {
      assert Wh(p) == WH + p;
      PrefixCancel(WH, WH, p);
    } else {
      PlainParent(p);
      NotWhiteout(Parent(p));
      if HasPrefix(Wh(p), AUFS) {
        PrefixOfParent(Wh(p), AUFS);
      }
    }
  }

  // ---- collecting a clean entry, in terms of the path it is about ----

  lemma NameUnder(s: Files, k: string, p: string)
    requires k in s && FiledUnder(s, k)
    ensures HasPrefix(s[k].name, p + "/") <==> Under(k, p) || (s[k].IsDir() && k == p)
  {
    var name := s[k].name;
    if s[k].IsDir() {
      assert name == k + "/";
      if HasPrefix(name, p + "/") {
        assert |p| <= |k|;
        assert k[..|p|] == name[..|p|] == p;
        if |p| < |k| {
          assert k[..|p| + 1] == name[..|p| + 1];
        }
      }
    }
  }

  function CollectedAt(s: Files, h: Header, p: string): Files {
    if !IsWhiteout(h) then (s - {Wh(p)})[p := h]
    else if p !in s then s[Wh(p) := h]
    else if s[p].IsDir() then map k | k in s && !AtOrUnder(k, p) :: s[k]
    else s - {p}
  }

  lemma NameAt(s: Files, p: string)
    requires NamesOk(s) && p in s && Plain(p)
    ensures s[p].name == if s[p].IsDir() then p + "/" else p
  {
    hide Plain, BaseStart, Wh, Target;
    assert FiledUnder(s, p);
    WhNotPlain(Target(s[p]));
  }

  // The header names that begin with that of a collected directory are those of the keys at or beneath it.
  lemma NamesUnder(s: Files, p: string)
    requires NamesOk(s) && p in s && Plain(p) && s[p].IsDir()
    ensures forall k :: k in s ==> (HasPrefix(s[k].name, s[p].name) <==> AtOrUnder(k, p))
  {
    hide Plain, BaseStart, Wh, FiledUnder, HasPrefix;
    NameAt(s, p);
    forall k | k in s
      ensures HasPrefix(s[k].name, s[p].name) <==> AtOrUnder(k, p)
    {
      NameUnder(s, k, p);
    }
  }

  // On clean entries the package path computes what it seems to.
  lemma CleanDeletion(h: Header)
    requires CleanEntry(h)
    ensures IsDeletion(h) == IsWhiteout(h)
    ensures IsWhiteout(h) ==> Victim(h.name) == Target(h) && h.name == Wh(Target(h))
    ensures h.IsDir() ==> h.name[..|h.name| - 1] == Target(h)
    ensures !h.IsDir() && !IsWhiteout(h) ==> h.name == Target(h)
    ensures WhPath(Target(h)) == Wh(Target(h))
  {
    hide Plain, BaseStart, PathBase, Victim, WhPath, Wh, CleanName;
    CleanEntryParts(h);
    WhPathIs(Target(h));
    VictimIs(Target(h));
    PlainNoSlash(Target(h));
    PathBaseIs(Target(h));
  }

  lemma CollectedClean(s: Files, h: Header)
    requires NamesOk(s) && CleanEntry(h)
    ensures Collected(s, h) == CollectedAt(s, h, Target(h))
  {
    hide Plain, BaseStart, Wh, NamesOk, HasPrefix, PathBase, PathJoin, PathDir, WhPath, IsWhiteout, IsDeletion, Target;
    CleanDeletion(h);
    CleanTarget(h);
    var p := Target(h);
    if IsWhiteout(h) && p in s {
      NameAt(s, p);
      if s[p].IsDir() {
        NamesUnder(s, p);
      }
    }
  }

  lemma CleanTarget(h: Header)
    requires CleanEntry(h)
    ensures Plain(Target(h)) && Target(h) != ""
    ensures IsWhiteout(h) ==> !h.IsDir()
  {}

  /** The map invariants survive any sequence of clean entries, whatever they say. */
  lemma NamesPreserved(s: Files, h: Header)
    requires NamesOk(s) && CleanEntry(h)
    ensures NamesOk(Collected(s, h))
  {
    hide Plain, BaseStart, Wh, Collected;
    var p := Target(h);
    var s' := Collected(s, h);
    CollectedClean(s, h);
    WhNotPlain(p);
    forall k | k in s'
      ensures FiledUnder(s', k)
    {
      assert k in s ==> FiledUnder(s, k);
    }
    forall k | k in s' && Plain(k)
      ensures Wh(k) !in s'
    {
      if Wh(k) == Wh(p) {
        WhInjective(k, p);
      }
      WhNotPlain(k);
    }
  }

  lemma {:induction false} NamesAlways(s: Files, layer: seq<Header>)
    requires NamesOk(s)
    requires forall h :: h in layer ==> CleanEntry(h)
    ensures NamesOk(CollectedAll(s, layer))
  {
    if layer == [] {
    } else {
      NamesAlways(s, layer[..|layer| - 1]);
      NamesPreserved(CollectedAll(s, layer[..|layer| - 1]), layer[|layer| - 1]);
    }
  }

  /** Whiting out a collected directory removes that directory and what lies beneath it, and nothing else: not a
      sibling whose name merely begins with the same letters. */
  lemma WhiteoutRemovesSubtree(s: Files, h: Header)
    requires NamesOk(s) && CleanEntry(h) && IsWhiteout(h)
    requires Target(h) in s && s[Target(h)].IsDir()
    ensures forall k :: k in Collected(s, h) <==> k in s && k != Target(h) && !Under(k, Target(h))
    ensures forall k :: k in Collected(s, h) ==> Collected(s, h)[k] == s[k]
    ensures forall c: char, x: string :: c != '/' && Target(h) + [c] + x in s ==> Target(h) + [c] + x in Collected(s, h)
  {
    hide Plain, BaseStart, Wh, Collected;
    CollectedClean(s, h);
    var p := Target(h);
    forall c: char, x: string | c != '/' && p + [c] + x in s
      ensures p + [c] + x in Collected(s, h)
    {
      assert (p + [c] + x)[|p|] == c && (p + "/")[|p|] == '/';
    }
  }

  // ---- collecting any entry ----

  /** A header is filed under its name, less its last character when it is a directory. */
  ghost predicate FiledByName(s: Files) {
    forall k :: k in s ==> k == KeyOf(s[k])
  }

  function KeyOf(h: Header): string {
    if h.IsDir() then h.name[..|h.name| - 1] else h.name
  }

  lemma FiledByNameKept(s: Files, h: Header)
    requires FiledByName(s)
    ensures FiledByName(Collected(s, h))
  {
    hide PathBase, PathJoin, PathDir;
  }

  lemma {:induction false} FiledByNameAlways(s: Files, layer: seq<Header>)
    requires FiledByName(s)
    ensures FiledByName(CollectedAll(s, layer))
  {
    hide Collected;
    if layer == [] {
    } else {
      FiledByNameAlways(s, layer[..|layer| - 1]);
      FiledByNameKept(CollectedAll(s, layer[..|layer| - 1]), layer[|layer| - 1]);
    }
  }

  /** The metadata of aufs is collected like any other file: under its own name, in the place of its own whiteout, and
      with no effect on anything else. */
  lemma MetadataCollected(s: Files, h: Header)
    requires !h.IsDir() && HasPrefix(PathBase(h.name), AUFS)
    ensures Collected(s, h).Keys == s.Keys - {WhPath(h.name)} + {h.name}
    ensures Collected(s, h)[h.name] == h
    ensures forall k :: k in Collected(s, h) && k != h.name ==> Collected(s, h)[k] == s[k]
  {
    hide PathBase, PathJoin, PathDir;
  }

  /** And so is every file that is neither metadata nor a whiteout. */
  lemma FileCollected(s: Files, h: Header)
    requires !h.IsDir() && !HasPrefix(PathBase(h.name), WH)
    ensures Collected(s, h).Keys == s.Keys - {WhPath(h.name)} + {h.name}
    ensures Collected(s, h)[h.name] == h
    ensures forall k :: k in Collected(s, h) && k != h.name ==> Collected(s, h)[k] == s[k]
  {
    hide PathBase, PathJoin, PathDir;
  }

  /** The entry h neither overwrites nor removes what is filed under the name: it is no addition there, nor where
      the name would be its whiteout, and no whiteout of the name or of a directory above it. */
  predicate LeavesAlone(h: Header, name: string) {
    if h.IsDir() || HasPrefix(PathBase(h.name), AUFS) || !HasPrefix(PathBase(h.name), WH) then
      KeyOf(h) != name && WhPath(KeyOf(h)) != name
    else
      h.name != name && !AtOrUnder(name, Victim(h.name))
  }

  predicate SlashedDirs(layer: seq<Header>) {
    forall h :: h in layer && h.IsDir() ==> h.name[|h.name| - 1] == '/'
  }

  ghost predicate SlashedFiles(s: Files) {
    forall k :: k in s && s[k].IsDir() ==> s[k].name[|s[k].name| - 1] == '/'
  }

  lemma LeftAlone(s: Files, h: Header, name: string)
    requires FiledByName(s) && SlashedFiles(s) && name in s && !s[name].IsDir() && LeavesAlone(h, name)
    ensures name in Collected(s, h) && Collected(s, h)[name] == s[name]
  {
    hide PathBase, PathJoin, PathDir, WhPath, Victim;
    if IsDeletion(h) && Victim(h.name) in s {
      var v := Victim(h.name);
      if s[v].IsDir() {
        assert s[v].name == v + "/";
      }
    }
  }

  lemma SlashedKept(s: Files, h: Header)
    requires SlashedFiles(s) && SlashedDirs([h])
    ensures SlashedFiles(Collected(s, h))
  {
    hide PathBase, PathJoin, PathDir, WhPath, Victim;
    assert h in [h];
  }

  /** A file that was collected stays collected as long as later entries leave it alone. */
  lemma {:induction false} StaysCollected(s: Files, layer: seq<Header>, name: string)
    requires FiledByName(s) && SlashedFiles(s) && SlashedDirs(layer) && name in s && !s[name].IsDir()
    requires forall h :: h in layer ==> LeavesAlone(h, name)
    ensures FiledByName(CollectedAll(s, layer)) && SlashedFiles(CollectedAll(s, layer))
    ensures name in CollectedAll(s, layer) && CollectedAll(s, layer)[name] == s[name]
  {
    hide Collected, LeavesAlone, FiledByName, SlashedFiles;
    if layer == [] {
    } else {
      var before, h := layer[..|layer| - 1], layer[|layer| - 1];
      StaysCollected(s, before, name);
      var s' := CollectedAll(s, before);
      assert SlashedDirs([h]);
      FiledByNameKept(s', h);
      SlashedKept(s', h);
      LeftAlone(s', h, name);
    }
  }

  lemma OneCollected(s: Files, h: Header)
    ensures CollectedAll(s, [h]) == Collected(s, h)
  {
    hide Collected;
    assert [h][..0] == [];
    assert CollectedAll(s, []) == s;
  }

  lemma {:induction false} CollectedSplit(s: Files, a: seq<Header>, c: seq<Header>)
    ensures CollectedAll(s, a + c) == CollectedAll(CollectedAll(s, a), c)
  {
    hide Collected;
    if c == [] {
      assert a + c == a;
    } else {
      assert (a + c)[..|a + c| - 1] == a + c[..|c| - 1];
      CollectedSplit(s, a, c[..|c| - 1]);
    }
  }

  lemma {:induction false} SlashedAlways(s: Files, layer: seq<Header>)
    requires SlashedFiles(s) && SlashedDirs(layer)
    ensures SlashedFiles(CollectedAll(s, layer))
  {
    hide Collected, SlashedFiles;
    if layer == [] {
    } else {
      SlashedAlways(s, layer[..|layer| - 1]);
      assert SlashedDirs([layer[|layer| - 1]]);
      SlashedKept(CollectedAll(s, layer[..|layer| - 1]), layer[|layer| - 1]);
    }
  }
}
