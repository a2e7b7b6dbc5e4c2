/** The descending sort `cli` applies to the band list
    (`sort_unstable_by(|a, b| b.cmp(a))`), as an insertion sort. */
module Sorting {

  /** Non-increasing order: each element is at least every later one. */
  predicate SortedDesc(s: seq<nat>) {
    forall i, j | 0 <= i < j < |s| :: s[i] >= s[j]
  }

  /** Puts `x` into a descending sequence ahead of the first element not
      larger than it. */
  function Insert(x: nat, s: seq<nat>): (r: seq<nat>)
    requires SortedDesc(s)
    ensures SortedDesc(r)
    ensures multiset(r) == multiset(s) + multiset{x}
    ensures |r| == |s| + 1 && (r[0] == x || (|s| > 0 && r[0] == s[0]))
  {
    if |s| == 0 || x >= s[0] then
      PrependSorted(x, s);
      [x] + s
    else
      var rest := Insert(x, s[1..]);
      assert s == [s[0]] + s[1..];
      assert s[0] >= rest[0];
      PrependSorted(s[0], rest);
      [s[0]] + rest
  }

  /** A head no smaller than the head of a descending tail keeps it descending. */
  lemma PrependSorted(h: nat, t: seq<nat>)
    requires SortedDesc(t)
    requires |t| > 0 ==> h >= t[0]
    ensures SortedDesc([h] + t)
  {
    var r := [h] + t;
    forall i, j | 0 <= i < j < |r|
      ensures r[i] >= r[j]
    {
      assert r[j] == t[j - 1];
      if i > 0 {
        assert r[i] == t[i - 1];
      } else if j > 1 {
        assert t[0] >= t[j - 1];
      }
    }
  }

  /** The list in non-increasing order, duplicates kept. */
  function SortDesc(s: seq<nat>): (r: seq<nat>)
    ensures SortedDesc(r)
    ensures multiset(r) == multiset(s)
  {
    if |s| == 0 then []
    else
      assert s == [s[0]] + s[1..];
      Insert(s[0], SortDesc(s[1..]))
  }

  /** Two descending arrangements of the same multiset are equal, so the
      instability of the source's sort is unobservable on integers. */
  lemma {:induction false} SortedPermutationUnique(a: seq<nat>, b: seq<nat>)
    requires SortedDesc(a) && SortedDesc(b)
    requires multiset(a) == multiset(b)
    ensures a == b
  {
    if |a| > 0 {
      HeadsEqual(a, b);
      DropHead(a);
      DropHead(b);
      SortedPermutationUnique(a[1..], b[1..]);
      assert a == [a[0]] + a[1..];
      assert b == [b[0]] + b[1..];
    } else {
      assert |multiset(b)| == 0;
    }
  }

  /** Descending arrangements of the same non-empty multiset start with
      its largest element. */
  lemma HeadsEqual(a: seq<nat>, b: seq<nat>)
    requires SortedDesc(a) && SortedDesc(b)
    requires multiset(a) == multiset(b) && |a| > 0
    ensures |b| > 0 && a[0] == b[0]
  {
    assert a[0] in multiset(b);
    assert |b| > 0;
    assert b[0] in multiset(a);
    var i :| 0 <= i < |b| && b[i] == a[0];
    var j :| 0 <= j < |a| && a[j] == b[0];
    assert a[0] >= a[j] && b[0] >= b[i];
  }

  /** Dropping the head of a descending sequence leaves a descending
      sequence holding one fewer copy of the head. */
  lemma DropHead(a: seq<nat>)
    requires SortedDesc(a) && |a| > 0
    ensures SortedDesc(a[1..])
    ensures multiset(a[1..]) == multiset(a) - multiset{a[0]}
  {
    assert a == [a[0]] + a[1..];
  }
}
