/** The Layer object of layer.go: Apply folds a layer into Files, Size and Save read it. Map iteration takes the keys in
    an arbitrary order.
  */
module Layers {
  import opened Wrappers
  import opened Names
  import opened FileTree
  import opened Collect
  import opened Sorting
  import opened Squash

  class Layer {
    var files: Files

    constructor ()
      ensures files == map[]
    {
      files := map[];
    }

    method Undelete(path: string)
      modifies this
      ensures files == Collect.Undelete(old(files), path)
    {
      files := files - {PathJoin(PathDir(path), WH + PathBase(path))};
    }

    method Apply(layer: seq<Header>)
      modifies this
      ensures files == CollectedAll(old(files), layer)
    {
      hide Collected;
      for i := 0 to |layer|
        invariant files == CollectedAll(old(files), layer[..i])
      {
        assert layer[..i + 1][..i] == layer[..i];
        ApplyEntry(layer[i]);
      }
      assert layer[..|layer|] == layer;
    }

    /** The body of the loop over the entries. */
    method ApplyEntry(hdr: Header)
      modifies this
      ensures files == Collected(old(files), hdr)
    {
      hide PathBase, PathJoin, PathDir;
      var basename := PathBase(hdr.name);
      if hdr.IsDir() {
        var shortName := hdr.name[..|hdr.name| - 1];
        Undelete(shortName);
        files := files[shortName := hdr];
      } else if HasPrefix(basename, AUFS) || !HasPrefix(basename, WH) {
        Undelete(hdr.name);
        files := files[hdr.name := hdr];
      } else {
        var victim := PathJoin(PathDir(hdr.name), basename[|WH|..]);
        if victim !in files {
          files := files[hdr.name := hdr];
        } else if files[victim].IsDir() {
          RemoveBeneath(files[victim].name);
        } else {
          files := files - {files[victim].name};
        }
      }
    }

    /** The entries whose header name begins with name go, in whatever order they are met. */
    method RemoveBeneath(name: string)
      modifies this
      ensures files == map k | k in old(files) && !HasPrefix(old(files)[k].name, name) :: old(files)[k]
    {
      var rest := files.Keys;
      while rest != {}
        invariant rest <= old(files).Keys
        invariant files == map k | k in old(files) && !(k !in rest &&
          HasPrefix(old(files)[k].name, name)) :: old(files)[k]
      {
        var entry :| entry in rest;
        rest := rest - {entry};
        if HasPrefix(files[entry].name, name) {
          files := files - {entry};
        }
      }
    }

    method Size() returns (size: int)
      ensures forall saved :: IsSaved(saved, files) ==> size == TotalSize(saved)
    {
      size := 0;
      ghost var seen: seq<string> := [];
      var rest := files.Keys;
      while rest != {}
        invariant rest <= files.Keys
        invariant NoRepeats(seen) && forall k :: k in seen <==> k in files && k !in rest
        invariant size == KeySizes(files, seen)
      {
        var k :| k in rest;
        rest := rest - {k};
        size := size + files[k].size;
        assert (seen + [k])[..|seen|] == seen;
        seen := seen + [k];
      }
      forall saved | IsSaved(saved, files)
        ensures size == TotalSize(saved)
      {
        SizeOfListing(files, seen, saved);
      }
    }

    /** Emits every collected header once, by increasing key. */
    method Save() returns (out: seq<Header>)
      ensures IsSaved(out, files)
    {
      var names: seq<string> := [];
      var rest := files.Keys;
      while rest != {}
        invariant rest <= files.Keys
        invariant NoRepeats(names) && forall k :: k in names <==> k in files && k !in rest
      {
        var k :| k in rest;
        rest := rest - {k};
        names := names + [k];
      }
      names := SortStrings(names);
      out := [];
      for i := 0 to |names|
        invariant |out| == i
        invariant forall j :: 0 <= j < i ==> names[j] in files && out[j] == files[names[j]]
      {
        assert names[i] in names;
        out := out + [files[names[i]]];
      }
      assert IsListingOf(out, names, files);
    }
  }

  function TotalSize(hs: seq<Header>): int {
    if hs == [] then 0 else TotalSize(hs[..|hs| - 1]) + hs[|hs| - 1].size
  }

  function KeySizes(s: Files, ks: seq<string>): int
    requires forall k :: k in ks ==> k in s
  {
    if ks == [] then 0 else KeySizes(s, ks[..|ks| - 1]) + s[ks[|ks| - 1]].size
  }

  /** A saved layer is unique. */
  lemma SavedUnique(a: seq<Header>, b: seq<Header>, s: Files)
    requires IsSaved(a, s) && IsSaved(b, s)
    ensures a == b
  {
    hide Increasing;
    var ks :| IsListingOf(a, ks, s);
    var ls :| IsListingOf(b, ls, s);
    IncreasingUnique(ks, ls);
  }

  /** Every collected directory is emitted before everything collected beneath it. */
  lemma DirectoryFirst(hs: seq<Header>, keys: seq<string>, s: Files, i: nat, j: nat)
    requires IsListingOf(hs, keys, s) && i < |keys| && j < |keys|
    requires Under(keys[j], keys[i])
    ensures i < j
  {
    PrefixLess(keys[i], keys[j]);
    LessIrreflexive(keys[i]);
    if j < i {
      LessTransitive(keys[i], keys[j], keys[i]);
    }
  }

  // ---- the size does not depend on the order of the map ----

  lemma {:induction false} KeySizesSplit(s: Files, a: seq<string>, x: string, c: seq<string>)
    requires x in s && forall k :: k in a || k in c ==> k in s
    ensures KeySizes(s, a + [x] + c) == s[x].size + KeySizes(s, a + c)
  {
    if c == [] {
      assert a + [x] + c == a + [x] && a + c == a;
      assert (a + [x])[..|a|] == a;
    } else {
      var n := |c| - 1;
      assert (a + [x] + c)[..|a + [x] + c| - 1] == a + [x] + c[..n];
      assert (a + c)[..|a + c| - 1] == a + c[..n];
      KeySizesSplit(s, a, x, c[..n]);
    }
  }

  lemma DropOne(c: seq<string>, i: nat, k: string)
    requires NoRepeats(c) && i < |c|
    ensures k in c[..i] + c[i + 1..] <==> k in c && k != c[i]
  {
    var d := c[..i] + c[i + 1..];
    if k in c && k != c[i] {
      var m :| 0 <= m < |c| && c[m] == k;
      assert d[if m < i then m else m - 1] == k;
    }
  }

  lemma DropDistinct(c: seq<string>, i: nat)
    requires NoRepeats(c) && i < |c|
    ensures NoRepeats(c[..i] + c[i + 1..])
  {}

  lemma {:induction false} KeySizesSame(s: Files, a: seq<string>, c: seq<string>)
    requires NoRepeats(a) && NoRepeats(c)
    requires forall k :: k in a ==> k in s
    requires forall k :: k in a <==> k in c
    ensures KeySizes(s, a) == KeySizes(s, c)
  {
    if a == [] {
      SomeMember(c);
    } else {
      var n := |a| - 1;
      var x := a[n];
      assert x in c;
      var i :| 0 <= i < |c| && c[i] == x;
      assert c == c[..i] + [x] + c[i + 1..];
      KeySizesSplit(s, c[..i], x, c[i + 1..]);
      var c' := c[..i] + c[i + 1..];
      assert a[..n] + a[n + 1..] == a[..n];
      DropDistinct(c, i);
      DropDistinct(a, n);
      forall k
        ensures k in a[..n] <==> k in c'
        ensures k in a[..n] ==> k in s
      {
        DropOne(a, n, k);
        DropOne(c, i, k);
      }
      KeySizesSame(s, a[..n], c');
    }
  }

  lemma {:induction false} TotalIsKeySizes(hs: seq<Header>, keys: seq<string>, s: Files)
    requires |hs| == |keys| && forall i :: 0 <= i < |keys| ==> keys[i] in s && hs[i] == s[keys[i]]
    ensures TotalSize(hs) == KeySizes(s, keys)
  {
    if hs == [] {
    } else {
      TotalIsKeySizes(hs[..|hs| - 1], keys[..|hs| - 1], s);
    }
  }

  lemma SizeOfListing(s: Files, seen: seq<string>, saved: seq<Header>)
    requires NoRepeats(seen) && forall k :: k in seen <==> k in s
    requires IsSaved(saved, s)
    ensures KeySizes(s, seen) == TotalSize(saved)
  {
    var keys :| IsListingOf(saved, keys, s);
    assert forall i :: 0 <= i < |keys| ==> keys[i] in keys;
    TotalIsKeySizes(saved, keys, s);
    forall i, j | 0 <= i < j < |keys|
      ensures keys[i] != keys[j]
    {
      LessIrreflexive(keys[i]);
    }
    KeySizesSame(s, seen, keys);
  }

  /** The metadata of aufs, like every file that is no whiteout, is emitted when nothing later in its layer or above it
      overwrites or removes it. */
  lemma FileEmitted(s: Files, before: seq<Header>, h: Header, after: seq<Header>, saved: seq<Header>)
    requires FiledByName(s) && SlashedFiles(s) && SlashedDirs(before + [h] + after)
    requires !h.IsDir() && (HasPrefix(PathBase(h.name), AUFS) || !HasPrefix(PathBase(h.name), WH))
    requires forall k :: k in after ==> LeavesAlone(k, h.name)
    requires IsSaved(saved, CollectedAll(s, before + [h] + after))
    ensures h in saved
  {
    hide PathBase, LeavesAlone, Collected, CollectedAll, FiledByName, SlashedFiles;
    var s1 := CollectedAll(s, before);
    var layer := before + [h];
    assert forall k :: k in before || k in after || k == h ==> k in before + [h] + after;
    FiledByNameAlways(s, before);
    SlashedAlways(s, before);
    CollectedSplit(s, before, [h]);
    OneCollected(s1, h);
    if HasPrefix(PathBase(h.name), AUFS) {
      MetadataCollected(s1, h);
    } else {
      FileCollected(s1, h);
    }
    FiledByNameKept(s1, h);
    assert SlashedDirs([h]);
    SlashedKept(s1, h);
    StaysCollected(Collected(s1, h), after, h.name);
    CollectedSplit(s, layer, after);
    SavedHas(saved, CollectedAll(s, layer + after), h.name);
  }

  lemma SavedHas(saved: seq<Header>, s: Files, k: string)
    requires IsSaved(saved, s) && k in s
    ensures s[k] in saved
  {
    var keys :| IsListingOf(saved, keys, s);
    var i :| 0 <= i < |keys| && keys[i] == k;
    assert saved[i] == s[k];
  }

  lemma NothingFiled()
    ensures FiledByName(map[]) && SlashedFiles(map[])
  {}
}
