/** sort.Strings on distinct strings: byte-wise order and the one increasing listing of a set. */
module Sorting {
  import opened Names

  predicate Less(a: string, b: string) {
    b != "" && (a == "" || a[0] < b[0] || (a[0] == b[0] && Less(a[1..], b[1..])))
  }

  predicate Increasing(ss: seq<string>) {
    forall i, j :: 0 <= i < j < |ss| ==> Less(ss[i], ss[j])
  }

  lemma {:induction false} LessTransitive(a: string, b: string, c: string)
    requires Less(a, b) && Less(b, c)
    ensures Less(a, c)
  {
    if a != "" && a[0] == b[0] == c[0] {
      LessTransitive(a[1..], b[1..], c[1..]);
    }
  }

  lemma {:induction false} LessTotal(a: string, b: string)
    requires a != b
    ensures Less(a, b) <==> !Less(b, a)
  {
    if a != "" && b != "" && a[0] == b[0] {
      assert a == [a[0]] + a[1..] && b == [b[0]] + b[1..];
      LessTotal(a[1..], b[1..]);
    }
  }

  lemma {:induction false} LessIrreflexive(a: string)
    ensures !Less(a, a)
  {
    if a == "" {
    } else {
      LessIrreflexive(a[1..]);
    }
  }

  /** A proper prefix comes first, so a directory comes before what is beneath it. */
  lemma {:induction false} PrefixLess(a: string, b: string)
    requires HasPrefix(b, a) && a != b
    ensures Less(a, b)
  {
    if a == "" {
    } else {
      PrefixLess(a[1..], b[1..]);
    }
  }

  /** An insertion into an increasing sequence. */
  function Insert(x: string, ss: seq<string>): (r: seq<string>)
    requires Increasing(ss) && x !in ss
    ensures Increasing(r)
    ensures forall y :: y in r <==> y == x || y in ss
    ensures |r| == |ss| + 1
  {
    if ss == [] then [x]
    else if Less(x, ss[0]) then
      assert forall i :: 0 < i < |ss| ==> Less(x, ss[i]) by {
        forall i | 0 < i < |ss| ensures Less(x, ss[i]) {
          LessTransitive(x, ss[0], ss[i]);
        }
      }
      [x] + ss
    else
      LessTotal(x, ss[0]);
      var r := Insert(x, ss[1..]);
      assert forall y :: y in r ==> Less(ss[0], y);
      [ss[0]] + r
  }

  function SortStrings(ss: seq<string>): (r: seq<string>)
    requires forall i, j :: 0 <= i < j < |ss| ==> ss[i] != ss[j]
    ensures Increasing(r)
    ensures forall y :: y in r <==> y in ss
    ensures |r| == |ss|
  {
    if ss == [] then [] else Insert(ss[0], SortStrings(ss[1..]))
  }

  /** There is only one increasing listing of a set. */
  lemma {:induction false} IncreasingUnique(a: seq<string>, b: seq<string>)
    requires Increasing(a) && Increasing(b)
    requires forall x :: x in a <==> x in b
    ensures a == b
  {
    SomeMember(a);
    SomeMember(b);
    if a != [] && b != [] {
      assert a[0] in b && b[0] in a;
      var i :| 0 <= i < |b| && b[i] == a[0];
      var j :| 0 <= j < |a| && a[j] == b[0];
      if i > 0 && j > 0 {
        LessTransitive(a[0], a[j], a[0]);
        LessIrreflexive(a[0]);
      }
      assert a[0] == b[0];
      forall x
        ensures x in a[1..] <==> x in b[1..]
      {
        IncreasingTail(a, x);
        IncreasingTail(b, x);
      }
      IncreasingUnique(a[1..], b[1..]);
    }
  }

  lemma SomeMember(a: seq<string>)
    ensures a != [] ==> exists x :: x in a
  {
    if a != [] {
      assert a[0] in a;
    }
  }

  lemma IncreasingTail(a: seq<string>, x: string)
    requires Increasing(a) && a != []
    ensures x in a[1..] <==> x in a && x != a[0]
  {
    LessIrreflexive(x);
    if x in a && x != a[0] {
      var k :| 0 <= k < |a| && a[k] == x;
      assert a[1..][k - 1] == x;
    }
  }
}
