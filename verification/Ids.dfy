/** Canonical id order: byte-wise ascending strings, the order in which the
    program's maps and sets are iterated. */
module Ids {
  import opened Graphs

  predicate Less(a: string, b: string) {
    b != [] && (a == [] || a[0] < b[0] || (a[0] == b[0] && Less(a[1..], b[1..])))
  }

  /** The ids agree up to some place, and there the first ends or has the lower character. */
  ghost predicate FirstDiffers(a: string, b: string, i: nat) {
    i <= |a| && i < |b| && a[..i] == b[..i] && (i < |a| ==> a[i] < b[i])
  }

  /** The order is that of the characters at the first difference. */
  lemma {:induction false} LessMeans(a: string, b: string)
    ensures Less(a, b) <==> exists i: nat :: FirstDiffers(a, b, i)
    decreases |a|
  {
    if a != [] && b != [] && a[0] == b[0] {
      LessMeans(a[1..], b[1..]);
      if i: nat :| FirstDiffers(a[1..], b[1..], i) {
        assert a[..i + 1] == [a[0]] + a[1..][..i] && b[..i + 1] == [b[0]] + b[1..][..i];
        assert FirstDiffers(a, b, i + 1);
      }
      if i: nat :| FirstDiffers(a, b, i) {
        assert i > 0 && a[1..][..i - 1] == a[..i][1..] && b[1..][..i - 1] == b[..i][1..];
        assert FirstDiffers(a[1..], b[1..], i - 1);
      }
    } else {
      if Less(a, b) { assert FirstDiffers(a, b, 0); }
      if i: nat :| FirstDiffers(a, b, i) { assert i > 0 ==> a[..i][0] == b[..i][0]; }
    }
  }

  lemma {:induction false} LessIrreflexive(a: string)
    ensures !Less(a, a)
    decreases |a|
  {
    if a != [] { LessIrreflexive(a[1..]); }
  }

  lemma {:induction false} LessTransitive(a: string, b: string, c: string)
    requires Less(a, b) && Less(b, c)
    ensures Less(a, c)
    decreases |a|
  {
    if a != [] && a[0] == b[0] == c[0] { LessTransitive(a[1..], b[1..], c[1..]); }
  }

  lemma {:induction false} LessTotal(a: string, b: string)
    ensures a == b || Less(a, b) || Less(b, a)
    decreases |a|
  {
    if a != [] && b != [] && a[0] == b[0] {
      LessTotal(a[1..], b[1..]);
      assert a == [a[0]] + a[1..] && b == [b[0]] + b[1..];
    }
  }

  ghost predicate Ascending(ids: seq<string>) {
    forall i, j :: 0 <= i < j < |ids| ==> Less(ids[i], ids[j])
  }

  ghost predicate IsSorted(ids: seq<string>, s: set<string>) {
    Ascending(ids) && Elements(ids) == s
  }

  lemma {:induction false} LeastExists(s: set<string>) returns (least: string)
    requires s != {}
    ensures least in s && forall x <- s :: x != least ==> Less(least, x)
    decreases s
  {
    var some :| some in s;
    var rest := s - {some};
    if rest == {} {
      least := some;
      assert s == {some};
    } else {
      var other := LeastExists(rest);
      LessTotal(some, other);
      least := if Less(some, other) then some else other;
      forall x <- s | x != least ensures Less(least, x) {
        if least == some && x != other { LessTransitive(some, other, x); }
      }
    }
  }

  method SortIds(s: set<string>) returns (ids: seq<string>)
    ensures IsSorted(ids, s)
  {
    ids := [];
    var left := s;
    while left != {}
      invariant Ascending(ids) && Elements(ids) + left == s && Elements(ids) !! left
      invariant forall a <- ids, b <- left :: Less(a, b)
      decreases left
    {
      ghost var least := LeastExists(left);
      var next :| next in left && forall x <- left :: x != next ==> Less(next, x);
      ids, left := ids + [next], left - {next};
    }
  }

  lemma {:induction false} SortedExists(s: set<string>)
    ensures exists ids :: IsSorted(ids, s)
    decreases s
  {
    if s == {} {
      assert IsSorted([], s);
    } else {
      var least := LeastExists(s);
      SortedExists(s - {least});
      var rest :| IsSorted(rest, s - {least});
      var ids := [least] + rest;
      forall i, j | 0 <= i < j < |ids| ensures Less(ids[i], ids[j]) {
        assert ids[j] in Elements(rest);
      }
      assert Elements(ids) == {least} + Elements(rest) == s;
      assert IsSorted(ids, s);
    }
  }

  /** The ids of a set in canonical order. */
  ghost function Sorted(s: set<string>): (ids: seq<string>)
    ensures IsSorted(ids, s)
  {
    SortedExists(s);
    var ids :| IsSorted(ids, s);
    ids
  }

  /** The head of an ascending sequence is the one id below all others. */
  lemma {:induction false} HeadIsLeast(a: seq<string>, x: string)
    requires Ascending(a) && a != [] && x in a
    ensures !Less(x, a[0]) && (x != a[0] ==> Less(a[0], x))
  {
    LessIrreflexive(x);
    var i :| 0 <= i < |a| && a[i] == x;
    if i > 0 && Less(x, a[0]) { LessTransitive(x, a[0], x); }
  }

  lemma {:induction false} TailElements(a: seq<string>)
    requires Ascending(a) && a != []
    ensures Ascending(a[1..]) && Elements(a[1..]) == Elements(a) - {a[0]}
  {
    LessIrreflexive(a[0]);
    assert a == [a[0]] + a[1..];
    forall x ensures x in a[1..] <==> x in a && x != a[0] {
      if x in a[1..] {
        var i :| 0 <= i < |a[1..]| && a[1..][i] == x;
        assert a[i + 1] == x;
      }
    }
  }

  lemma {:induction false} SortedUnique(a: seq<string>, b: seq<string>)
    requires Ascending(a) && Ascending(b) && Elements(a) == Elements(b)
    ensures a == b
    decreases |a|
  {
    assert forall i :: 0 <= i < |a| ==> a[i] in Elements(a);
    assert forall i :: 0 <= i < |b| ==> b[i] in Elements(b);
    if a == [] || b == [] {
    } else {
      HeadIsLeast(a, b[0]);
      HeadIsLeast(b, a[0]);
      assert a[0] == b[0];
      TailElements(a);
      TailElements(b);
      SortedUnique(a[1..], b[1..]);
      assert a == [a[0]] + a[1..] && b == [b[0]] + b[1..];
    }
  }

  lemma {:induction false} SortedIs(ids: seq<string>, s: set<string>)
    requires IsSorted(ids, s)
    ensures ids == Sorted(s)
  {
    SortedUnique(ids, Sorted(s));
  }

  lemma {:induction false} AscendingDistinct(ids: seq<string>)
    requires Ascending(ids)
    ensures forall i, j :: 0 <= i < j < |ids| ==> ids[i] != ids[j]
  {
    forall i, j | 0 <= i < j < |ids| ensures ids[i] != ids[j] { LessIrreflexive(ids[i]); }
  }

  /** An ascending list has as many ids as it lists. */
  lemma {:induction false} AscendingSize(ids: seq<string>)
    requires Ascending(ids)
    ensures |Elements(ids)| == |ids|
    decreases |ids|
  {
    if ids != [] {
      var last := |ids| - 1;
      AscendingDistinct(ids);
      AscendingSize(ids[..last]);
      assert ids == ids[..last] + [ids[last]];
      assert Elements(ids) == Elements(ids[..last]) + {ids[last]};
    }
  }

  lemma {:induction false} NotYetListed(ids: seq<string>, i: nat)
    requires Ascending(ids) && i < |ids|
    ensures ids[i] in Elements(ids) && ids[i] !in Elements(ids[..i])
    ensures Elements(ids[..i] + [ids[i]]) == Elements(ids[..i]) + {ids[i]}
  {
    AscendingDistinct(ids);
  }
}
