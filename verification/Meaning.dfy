/** What collected entries mean over a base tree, and the simulation at the heart of this project: applying one
    entry to a tree and collecting it keep that meaning, exactly when the entry meets the conditions below.
  */
module Meaning {
  import opened Wrappers
  import opened Names
  import opened FileTree
  import opened Collect

  /** The collected entries take away the base's path a and everything beneath it. */
  predicate HideAt(s: Files, a: string) {
    Wh(a) in s || (a in s && !s[a].IsDir())
  }

  predicate Hidden(s: Files, p: string)
    decreases |p|
  {
    HideAt(s, p) || (!TopLevel(p) && Hidden(s, Parent(p)))
  }

  function At(s: Files, b: Tree, p: string): Option<Node> {
    if p in s then Some(Landed(s[p].node, Get(b, p)))
    else if p in b && !Hidden(s, p) then Some(b[p])
    else None
  }

  /** t is what the collected entries s make of the base tree b. */
  ghost predicate Represents(t: Tree, s: Files, b: Tree) {
    forall p :: Plain(p) ==> Get(t, p) == At(s, b, p)
  }

  lemma RepresentsUnique(t: Tree, u: Tree, s: Files, b: Tree)
    requires TreeOk(t) && TreeOk(u) && Represents(t, s, b) && Represents(u, s, b)
    ensures t == u
  {
    hide Plain, At;
    forall p | p in t || p in u
      ensures Get(t, p) == Get(u, p)
    {
      assert Plain(p);
    }
    assert forall p :: p in t ==> Get(t, p).Some?;
    assert forall p :: p in u ==> Get(u, p).Some?;
    assert t.Keys == u.Keys;
    assert forall p :: p in t ==> Get(t, p) == Some(t[p]);
    assert forall p :: p in u ==> Get(u, p) == Some(u[p]);
  }

  // ---- the conditions on one entry ----

  /** (W) a whiteout that hits a collected entry names a path absent from the base. */
  predicate WhiteoutOk(s: Files, b: Tree, h: Header) {
    IsWhiteout(h) && Target(h) in s ==> Target(h) !in b
  }

  /** No collected addition lies beneath p. */
  ghost predicate NoneBeneath(s: Files, p: string) {
    forall k :: k in s && Plain(k) ==> !Under(k, p)
  }

  /** (F) a non-directory does not land above collected additions. */
  ghost predicate FileOk(s: Files, h: Header) {
    !h.IsDir() && !IsWhiteout(h) ==> NoneBeneath(s, Target(h))
  }

  function DirCap(t: Tree, p: string): string {
    if p in t && t[p].IsDir() then t[p].cap else ""
  }

  /** (D) a directory does not land where the collected entries take away a non-empty directory of the base. */
  ghost predicate DirOk(s: Files, b: Tree, h: Header) {
    h.IsDir() && HideAt(s, Target(h)) ==> forall q :: q in b ==> !Under(q, Target(h))
  }

  /** (C) a directory entry that names no capability does not land where the collected directory has another
      one than the base's, or where the collected entries take away a directory with one. */
  predicate CapOk(s: Files, b: Tree, h: Header) {
    var p := Target(h);
    h.IsDir() && h.node.cap == "" ==>
      if p in s && s[p].IsDir() then s[p].node.cap == "" || s[p].node.cap == DirCap(b, p)
      else HideAt(s, p) ==> DirCap(b, p) == ""
  }

  /** A whiteout strands no collected addition: what lies beneath its path goes with a collected directory. */
  ghost predicate StrandsNone(s: Files, h: Header) {
    IsWhiteout(h) && !(Target(h) in s && s[Target(h)].IsDir()) ==> NoneBeneath(s, Target(h))
  }

  ghost predicate EntryOk(s: Files, b: Tree, h: Header) {
    WhiteoutOk(s, b, h) && FileOk(s, h) && DirOk(s, b, h) && CapOk(s, b, h)
  }

  // ---- how hiding changes ----

  lemma {:induction false} HiddenAway(s: Files, s': Files, p: string, q: string)
    requires forall a :: Plain(a) && !AtOrUnder(a, p) ==> (HideAt(s, a) <==> HideAt(s', a))
    requires Plain(q) && !AtOrUnder(q, p)
    ensures Hidden(s, q) <==> Hidden(s', q)
    decreases |q|
  {
    hide Plain, HideAt, BaseStart;
    if TopLevel(q) {
    } else {
      PlainParent(q);
      UnderParent(q, p);
      HiddenAway(s, s', p, Parent(q));
    }
  }

  lemma {:induction false} HiddenSame(s: Files, s': Files, q: string)
    requires forall a :: Plain(a) ==> (HideAt(s, a) <==> HideAt(s', a))
    requires Plain(q)
    ensures Hidden(s, q) <==> Hidden(s', q)
    decreases |q|
  {
    hide Plain, HideAt, BaseStart;
    if TopLevel(q) {
    } else {
      PlainParent(q);
      HiddenSame(s, s', Parent(q));
    }
  }

  lemma {:induction false} HiddenBelow(s: Files, p: string, q: string)
    requires HideAt(s, p) && Plain(q) && AtOrUnder(q, p)
    ensures Hidden(s, q)
    decreases |q|
  {
    hide Plain, HideAt, BaseStart;
    if q != p {
      UnderParent(q, p);
      PlainParent(q);
      HiddenBelow(s, p, Parent(q));
    }
  }

  // ---- applying a clean entry, in terms of the path it is about ----

  function AppliedAt(t: Tree, h: Header, p: string): Tree {
    if IsWhiteout(h) then Prune(t, p)
    else
      var t1 := if p in t && !(t[p].IsDir() && h.IsDir()) then Prune(t, p) else t;
      t1[p := Landed(h.node, Get(t1, p))]
  }

  /** With its parent there, a clean entry applies without making any directory and cannot fail. */
  lemma AppliedClean(t: Tree, h: Header)
    requires TreeOk(t) && CleanEntry(h) && DirAt(t, Parent(Target(h)))
    ensures !ParentMissing(t, CleanName(h.name))
    ensures AfterEntry(t, h) == Outcome(true, AppliedAt(t, h, Target(h)))
  {
    hide Plain, BaseStart, Landed;
    var p := Target(h);
    CleanEntryParts(h);
    OriginalIs(p);
    if !IsWhiteout(h) && p in t && !(t[p].IsDir() && h.IsDir()) {
      ParentNotUnder(p);
    }
  }

  /** In any tree an addition succeeds if and only if nothing but a directory stands in its way, and it makes just the
      directories that are missing above it. */
  lemma AppliedAnywhere(t: Tree, h: Header)
    requires TreeOk(t) && CleanEntry(h) && !IsWhiteout(h)
    ensures AfterEntry(t, h).ok <==> NearestIsDir(t, Parent(Target(h)))
    ensures AfterEntry(t, h).ok ==>
      AfterEntry(t, h).tree == AppliedAt(MkdirAll(t, Parent(Target(h))), h, Target(h)) && TreeOk(AfterEntry(t, h).tree)
  {
    hide Plain, BaseStart, Landed, TreeOk, AppliedAt, IsWhiteout, IsDirEntry;
    var p := Target(h);
    var up := Parent(p);
    CleanEntryParts(h);
    ParentPlain(p);
    if NearestIsDir(t, up) {
      MadeExactly(t, up);
      var t0 := MkdirAll(t, up);
      AppliedClean(t0, h);
      AppliedTreeOk(t0, h, p);
      assert AfterEntry(t, h) == AfterEntry(t0, h);
    } else {
      NotADir(t, h, p);
    }
  }

  lemma ParentPlain(p: string)
    requires Plain(p)
    ensures Parent(p) == "" || Plain(Parent(p))
  {}

  lemma NotADir(t: Tree, h: Header, p: string)
    requires Plain(p) && CleanName(h.name) == p && !NearestIsDir(t, Parent(p))
    requires !HasPrefix(p, AUFS) && !HasPrefix(Base(p), WH)
    ensures !AfterEntry(t, h).ok
  {
    hide BaseStart, Landed;
    ParentNotUnder(p);
  }

  lemma AppliedTreeOk(t: Tree, h: Header, p: string)
    requires TreeOk(t) && Plain(p) && DirAt(t, Parent(p))
    ensures TreeOk(AppliedAt(t, h, p))
  {
    hide Plain, BaseStart, IsWhiteout, Parent, TopLevel;
    var t' := AppliedAt(t, h, p);
    ParentNotUnder(p);
    forall q | q in t'
      ensures Plain(q) && DirAt(t', Parent(q))
    {
      UnderParent(q, p);
      TopLevelParent(q);
    }
  }

  // ---- the simulation ----

  // Whiting out p changes what hides a path outside p in no way.
  lemma HideAtApart(s: Files, h: Header, p: string, a: string)
    requires IsWhiteout(h) && Plain(p) && Plain(a) && !AtOrUnder(a, p)
    ensures HideAt(s, a) <==> HideAt(CollectedAt(s, h, p), a)
  {
    hide Plain, BaseStart, IsWhiteout, Wh, Under;
    WhApart(a, p);
    WhNotPlain(p);
    WhNotPlain(a);
  }

  // Nothing is left at or beneath a path that is whited out.
  lemma WhiteoutBelow(t: Tree, s: Files, b: Tree, h: Header, p: string, q: string)
    requires TreeOk(b) && NamesOk(s) && Plain(q) && AtOrUnder(q, p)
    requires IsWhiteout(h) && p == Target(h) && Plain(p)
    requires WhiteoutOk(s, b, h) && StrandsNone(s, h)
    ensures At(CollectedAt(s, h, p), b, q) == None
  {
    hide Plain, BaseStart, IsWhiteout, Target, Wh, Landed, Under, Hidden, FiledUnder;
    WhNotPlain(p);
    if p !in s {
      HiddenBelow(CollectedAt(s, h, p), p, q);
    } else if q in b && q != p {
      AboveIsDir(b, q, p);
    }
  }

  // Whiting out p changes nothing outside p and leaves nothing at or beneath it.
  lemma WhiteoutStep(t: Tree, s: Files, b: Tree, h: Header, p: string)
    requires TreeOk(b) && NamesOk(s) && Represents(t, s, b)
    requires IsWhiteout(h) && p == Target(h) && Plain(p)
    requires WhiteoutOk(s, b, h) && StrandsNone(s, h)
    ensures Represents(AppliedAt(t, h, p), CollectedAt(s, h, p), b)
  {
    hide Plain, BaseStart, IsWhiteout, Target, Wh, Landed, Under, Hidden, HideAt, TreeOk, NamesOk, WhiteoutOk;
    hide StrandsNone;
    var s' := CollectedAt(s, h, p);
    WhNotPlain(p);
    forall a | Plain(a) && !AtOrUnder(a, p)
      ensures HideAt(s, a) <==> HideAt(s', a)
    {
      HideAtApart(s, h, p, a);
    }
    forall q | Plain(q)
      ensures Get(AppliedAt(t, h, p), q) == At(s', b, q)
    {
      assert Get(t, q) == At(s, b, q);
      if AtOrUnder(q, p) {
        WhiteoutBelow(t, s, b, h, p, q);
      } else {
        HiddenAway(s, s', p, q);
      }
    }
  }

  // The whiteout of a lies where a lies.
  lemma WhApart(a: string, p: string)
    requires Plain(a) && Plain(p) && !AtOrUnder(a, p)
    ensures Wh(a) != p && Wh(a) != Wh(p) && !AtOrUnder(Wh(a), p)
  {
    hide Plain;
    WhNotPlain(a);
    if Wh(a) == Wh(p) {
      WhInjective(a, p);
    }
    WhParts(a);
    UnderParent(Wh(a), p);
    UnderParent(a, p);
  }

  // Nothing hides a directory that is there.
  lemma {:induction false} VisibleDir(t: Tree, s: Files, b: Tree, q: string)
    requires TreeOk(t) && NamesOk(s) && Represents(t, s, b)
    requires q in t && t[q].IsDir()
    ensures !Hidden(s, q)
    decreases |q|
  {
    hide BaseStart, Wh;
    assert Plain(q) && Get(t, q) == At(s, b, q);
    if TopLevel(q) {
    } else {
      PlainParent(q);
      VisibleDir(t, s, b, Parent(q));
    }
  }

  // What lands at p merges with what the base has there, or with nothing that matters.
  lemma LandedStep(t: Tree, s: Files, b: Tree, h: Header, p: string)
    requires TreeOk(t) && NamesOk(s) && Represents(t, s, b)
    requires p == Target(h) && Plain(p) && DirAt(t, Parent(p)) && CapOk(s, b, h)
    ensures var was := if p in t && t[p].IsDir() && h.IsDir() then Some(t[p]) else None;
      Landed(h.node, was) == Landed(h.node, Get(b, p))
  {
    hide Plain, BaseStart, Wh, Target;
    TopLevelParent(p);
    if !TopLevel(p) {
      VisibleDir(t, s, b, Parent(p));
    }
    assert Get(t, p) == At(s, b, p);
  }

  lemma HideAtElsewhere(s: Files, h: Header, p: string, a: string)
    requires Plain(p) && Plain(a) && a != p && !IsWhiteout(h)
    ensures HideAt(s, a) <==> HideAt(CollectedAt(s, h, p), a)
  {
    hide Plain, BaseStart, IsWhiteout, Wh;
    WhNotPlain(a);
    WhNotPlain(p);
    if Wh(a) == Wh(p) {
      WhInjective(a, p);
    }
  }

  // Beneath the path of an addition: a file leaves nothing there, a directory leaves what was there.
  lemma AdditionBelow(t: Tree, s: Files, b: Tree, h: Header, p: string, q: string)
    requires TreeOk(t) && NamesOk(s) && Represents(t, s, b)
    requires !IsWhiteout(h) && p == Target(h) && Plain(p) && Plain(q) && Under(q, p)
    requires FileOk(s, h) && DirOk(s, b, h)
    ensures At(CollectedAt(s, h, p), b, q) == if h.IsDir() then At(s, b, q) else None
    ensures !(p in t && t[p].IsDir()) ==> At(s, b, q) == None
  {
    hide Plain, BaseStart, IsWhiteout, Target, Wh, Landed, Hidden, TopLevel, Parent;
    var s' := CollectedAt(s, h, p);
    WhNotPlain(p);
    assert Get(t, q) == At(s, b, q) && Get(t, p) == At(s, b, p);
    assert q in t ==> p in t && t[p].IsDir() by {
      if q in t {
        AboveIsDir(t, q, p);
      }
    }
    if !h.IsDir() {
      HiddenBelow(s', p, q);
    } else if HideAt(s, p) {
      HiddenBelow(s, p, p);
    } else {
      forall a | Plain(a)
        ensures HideAt(s, a) <==> HideAt(s', a)
      {
        if a != p {
          HideAtElsewhere(s, h, p, a);
        }
      }
      HiddenSame(s, s', q);
    }
  }

  // Adding at p changes nothing outside p; a file at p leaves nothing beneath it.
  lemma AdditionStep(t: Tree, s: Files, b: Tree, h: Header, p: string)
    requires TreeOk(t) && NamesOk(s) && Represents(t, s, b)
    requires !IsWhiteout(h) && p == Target(h) && Plain(p)
    requires DirAt(t, Parent(p)) && FileOk(s, h) && DirOk(s, b, h) && CapOk(s, b, h)
    ensures Represents(AppliedAt(t, h, p), CollectedAt(s, h, p), b)
  {
    hide Plain, BaseStart, IsWhiteout, Target, Wh, Landed, Under, Hidden, HideAt, TopLevel, Parent;
    hide FileOk, DirOk, CapOk, NamesOk, TreeOk;
    var s' := CollectedAt(s, h, p);
    forall a | Plain(a) && !AtOrUnder(a, p)
      ensures HideAt(s, a) <==> HideAt(s', a)
    {
      HideAtElsewhere(s, h, p, a);
    }
    WhNotPlain(p);
    forall q | Plain(q)
      ensures Get(AppliedAt(t, h, p), q) == At(s', b, q)
    {
      assert Get(t, q) == At(s, b, q);
      if q == p {
        LandedStep(t, s, b, h, p);
      } else if !Under(q, p) {
        HiddenAway(s, s', p, q);
      } else {
        AdditionBelow(t, s, b, h, p, q);
      }
    }
  }

  /** Applying a clean entry whose parent is there and collecting it keep the meaning of the collected entries. */
  lemma StepSimulates(t: Tree, s: Files, b: Tree, h: Header)
    requires TreeOk(t) && TreeOk(b) && NamesOk(s) && Represents(t, s, b)
    requires CleanEntry(h) && DirAt(t, Parent(Target(h)))
    requires StrandsNone(s, h) && EntryOk(s, b, h)
    ensures AfterEntry(t, h).ok && TreeOk(AfterEntry(t, h).tree)
    ensures NamesOk(Collected(s, h))
    ensures Represents(AfterEntry(t, h).tree, Collected(s, h), b)
  {
    hide Plain, BaseStart, Collected, AfterEntry, Represents, WhiteoutOk, FileOk, DirOk, CapOk, NamesOk, TreeOk;
    hide StrandsNone, Target;
    var p := Target(h);
    AppliedClean(t, h);
    AppliedTreeOk(t, h, p);
    CollectedClean(s, h);
    NamesPreserved(s, h);
    if IsWhiteout(h) {
      WhiteoutStep(t, s, b, h, p);
    } else {
      AdditionStep(t, s, b, h, p);
    }
  }
}
