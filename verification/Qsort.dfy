/** The library quicksort: a three-way partition in place, recursion on the
    smaller side and iteration on the larger. */
module Qsort {
  // Sequences stand for the array contents; positions count elements.

  /** A comparison function that is a total preorder. */
  ghost predicate TotalPreorder<T(!new)>(cmp: (T, T) -> int) {
    && (forall x, y :: cmp(x, y) < 0 <==> cmp(y, x) > 0)
    && (forall x, y, z :: cmp(x, y) <= 0 && cmp(y, z) <= 0 ==> cmp(x, z) <= 0)
  }

  ghost predicate Sorted<T>(cmp: (T, T) -> int, s: seq<T>, lo: nat, hi: nat)
    requires hi <= |s|
  {
    forall x, y :: lo <= x < y < hi ==> cmp(s[x], s[y]) <= 0
  }

  /** t is s with the elements from lo up to hi rearranged. */
  ghost predicate Rearranged<T>(s: seq<T>, t: seq<T>, lo: nat, hi: nat): (b: bool)
    ensures b ==> lo <= hi <= |s| && |t| == |s|
  {
    && lo <= hi <= |s| && |t| == |s|
    && t[..lo] == s[..lo] && t[hi..] == s[hi..]
    && multiset(t[lo..hi]) == multiset(s[lo..hi])
  }

  lemma RearrangedTrans<T>(s: seq<T>, t: seq<T>, u: seq<T>, lo: nat, hi: nat)
    requires Rearranged(s, t, lo, hi) && Rearranged(t, u, lo, hi)
    ensures Rearranged(s, u, lo, hi)
  {
  }

  /** Rearranging a part rearranges the whole. */
  lemma RearrangedPart<T>(s: seq<T>, t: seq<T>, lo: nat, hi: nat, l: nat, r: nat)
    requires Rearranged(s, t, l, r) && lo <= l && r <= hi <= |s|
    ensures Rearranged(s, t, lo, hi)
  {
    assert s[lo..hi] == s[lo..l] + s[l..r] + s[r..hi];
    assert t[lo..hi] == t[lo..l] + t[l..r] + t[r..hi];
    assert t[lo..l] == t[..l][lo..] == s[..l][lo..] == s[lo..l];
    assert t[r..hi] == t[r..][..hi - r] == s[r..][..hi - r] == s[r..hi];
    assert t[..lo] == t[..l][..lo] == s[..l][..lo] == s[..lo];
    assert t[hi..] == t[r..][hi - r..] == s[r..][hi - r..] == s[hi..];
  }

  function Swapped<T>(s: seq<T>, i: nat, j: nat): (t: seq<T>)
    requires i < |s| && j < |s|
    ensures |t| == |s|
  {
    s[i := s[j]][j := s[i]]
  }

  /** The three-way exchange: i gets k's element, k gets j's, j gets i's. */
  function Rotated<T>(s: seq<T>, i: nat, j: nat, k: nat): (t: seq<T>)
    requires i < |s| && j < |s| && k < |s|
    ensures |t| == |s|
  {
    var u := s[i := s[k]];
    var w := u[k := u[j]];
    w[j := s[i]]
  }

  lemma SwapRearranges<T>(s: seq<T>, i: nat, j: nat, lo: nat, hi: nat)
    requires lo <= i < hi && lo <= j < hi && hi <= |s|
    ensures Rearranged(s, Swapped(s, i, j), lo, hi)
  {
    var t := Swapped(s, i, j);
    assert t[lo..hi] == s[lo..hi][i - lo := s[j]][j - lo := s[i]];
    assert s[lo..hi][i - lo] == s[i] && s[lo..hi][j - lo] == s[j];
  }

  /** The three positions may coincide the way partitioning uses them. */
  lemma RotateRearranges<T>(s: seq<T>, i: nat, j: nat, k: nat, lo: nat, hi: nat)
    requires lo <= i < hi && lo <= j < hi && lo <= k < hi && hi <= |s| && i != j && i != k
    ensures Rearranged(s, Rotated(s, i, j, k), lo, hi)
  {
    var u := Swapped(s, i, k);
    assert Rotated(s, i, j, k) == Swapped(u, k, j);
    hide Swapped, Rearranged;
    SwapRearranges(s, i, k, lo, hi);
    SwapRearranges(u, k, j, lo, hi);
    RearrangedTrans(s, u, Swapped(u, k, j), lo, hi);
  }

  // The shape of a partition in progress: below, unknown, equal, unknown, above.
  ghost predicate Bounds(n: nat, lo: nat, hi: nat, i: nat, lp: nat, hp: nat, j: nat) {
    lo <= i <= lp <= hp <= j < hi <= n
  }

  ghost predicate Regions<T>(cmp: (T, T) -> int, s: seq<T>, p: T, lo: nat, hi: nat, i: nat, lp: nat, hp: nat, j: nat)
    requires Bounds(|s|, lo, hi, i, lp, hp, j)
  {
    && (forall k :: lo <= k < i ==> cmp(s[k], p) < 0)
    && (forall k :: lp <= k <= hp ==> cmp(s[k], p) == 0)
    && (forall k :: j < k < hi ==> cmp(s[k], p) > 0)
  }

  /** Comparing with any element of the middle region is comparing with the pivot. */
  lemma LikePivot<T(!new)>(cmp: (T, T) -> int, x: T, e: T, p: T)
    requires TotalPreorder(cmp) && cmp(e, p) == 0
    ensures cmp(x, e) < 0 <==> cmp(x, p) < 0
    ensures cmp(x, e) > 0 <==> cmp(x, p) > 0
    ensures cmp(x, e) > 0 <==> cmp(e, x) < 0
    ensures cmp(x, e) < 0 <==> cmp(e, x) > 0
  {
    assert cmp(p, e) == 0;
  }

  lemma Reflexive<T(!new)>(cmp: (T, T) -> int, x: T)
    requires TotalPreorder(cmp)
    ensures cmp(x, x) == 0
  {
    assert cmp(x, x) < 0 <==> cmp(x, x) > 0;
  }

  // What is in order: all pairs from lo up to hi, except those inside [l, m) and those inside [h, r).
  ghost predicate Settled<T>(cmp: (T, T) -> int, s: seq<T>, lo: nat, hi: nat, l: nat, m: nat, h: nat, r: nat)
    requires lo <= hi <= |s|
  {
    forall x, y :: lo <= x < y < hi && !(l <= x && y < m) && !(h <= x && y < r) ==> cmp(s[x], s[y]) <= 0
  }

  /** After a rearrangement each place of the part holds an element that was in the part. */
  lemma ComesFrom<T>(s: seq<T>, t: seq<T>, l: nat, r: nat, x: nat) returns (z: nat)
    requires Rearranged(s, t, l, r) && x < |t|
    ensures z < |s| && t[x] == s[z]
    ensures if l <= x < r then l <= z < r else z == x
  {
    if l <= x < r {
      assert t[x] == t[l..r][x - l];
      assert t[x] in multiset(t[l..r]);
      assert t[x] in multiset(s[l..r]);
      var k :| 0 <= k < r - l && s[l..r][k] == t[x];
      z := l + k;
    } else {
      z := x;
      if x < l {
        assert t[x] == t[..l][x] == s[..l][x] == s[x];
      } else {
        assert t[x] == t[r..][x - r] == s[r..][x - r] == s[x];
      }
    }
  }

  /** Rearranging a part whose inner pairs are not yet settled unsettles nothing. */
  lemma RearrangeHole<T(!new)>(cmp: (T, T) -> int, s: seq<T>, t: seq<T>, lo: nat, hi: nat, l: nat, m: nat, h: nat, r: nat)
    requires lo <= l <= m <= h <= r <= hi <= |s| && Settled(cmp, s, lo, hi, l, m, h, r)
    requires Rearranged(s, t, h, r) || Rearranged(s, t, l, m)
    ensures |t| == |s| && Settled(cmp, t, lo, hi, l, m, h, r)
  {
    var b, e := if Rearranged(s, t, h, r) then h else l, if Rearranged(s, t, h, r) then r else m;
    forall x, y | lo <= x < y < hi && !(l <= x && y < m) && !(h <= x && y < r)
      ensures cmp(t[x], t[y]) <= 0
    {
      var x' := ComesFrom(s, t, b, e, x);
      var y' := ComesFrom(s, t, b, e, y);
      assert lo <= x' < y' < hi && !(l <= x' && y' < m) && !(h <= x' && y' < r);
    }
  }

  /** A finished partition leaves only the pairs below and the pairs above the middle unsettled. */
  lemma PartitionSettles<T(!new)>(cmp: (T, T) -> int, s: seq<T>, p: T, lo: nat, hi: nat, l: nat, r: nat, lp: nat, hp: nat)
    requires TotalPreorder(cmp) && lo <= l && r <= hi <= |s| && Bounds(|s|, l, r, lp, lp, hp, hp)
    requires Settled(cmp, s, lo, hi, l, r, r, r) && Regions(cmp, s, p, l, r, lp, lp, hp, hp)
    ensures Settled(cmp, s, lo, hi, l, lp, hp + 1, r)
  {
    forall x, y | lo <= x < y < hi && !(l <= x && y < lp) && !(hp + 1 <= x && y < r)
      ensures cmp(s[x], s[y]) <= 0
    {
      if l <= x && y < r {
        assert cmp(s[x], p) <= 0;
        assert cmp(s[y], p) >= 0;
        assert cmp(p, s[y]) <= 0;
      }
    }
  }

  /** Where the sorting loop stands: all but the pairs inside [l, r) are settled. */
  ghost predicate Progress<T(!new)>(cmp: (T, T) -> int, was: seq<T>, s: seq<T>, lo: nat, hi: nat, l: nat, r: nat) {
    && Rearranged(was, s, lo, hi) && lo <= l <= r <= hi
    && (TotalPreorder(cmp) ==> Settled(cmp, s, lo, hi, l, r, r, r))
  }

  /** Between the partition and the recursive call two parts are pending. */
  ghost predicate Pending<T(!new)>(cmp: (T, T) -> int, was: seq<T>, s: seq<T>, lo: nat, hi: nat,
                                   l: nat, m: nat, h: nat, r: nat) {
    && Rearranged(was, s, lo, hi) && lo <= l <= m <= h <= r <= hi
    && (TotalPreorder(cmp) ==> Settled(cmp, s, lo, hi, l, m, h, r))
  }

  lemma Start<T(!new)>(cmp: (T, T) -> int, s: seq<T>, lo: nat, hi: nat)
    requires lo <= hi <= |s|
    ensures Progress(cmp, s, s, lo, hi, lo, hi)
  {
  }

  lemma Finish<T(!new)>(cmp: (T, T) -> int, was: seq<T>, s: seq<T>, lo: nat, hi: nat, l: nat, r: nat)
    requires Progress(cmp, was, s, lo, hi, l, r) && r - l <= 1
    ensures Rearranged(was, s, lo, hi)
    ensures TotalPreorder(cmp) ==> Sorted(cmp, s, lo, hi)
  {
  }

  lemma Parted<T(!new)>(cmp: (T, T) -> int, was: seq<T>, s: seq<T>, t: seq<T>, p: T, lo: nat, hi: nat,
                        l: nat, r: nat, lp: nat, hp: nat)
    requires Progress(cmp, was, s, lo, hi, l, r) && Parting(cmp, s, t, p, l, r, lp, lp, hp, hp)
    ensures Pending(cmp, was, t, lo, hi, l, lp, hp + 1, r)
  {
    hide Rearranged, TotalPreorder, Settled, Regions;
    RearrangedPart(s, t, lo, hi, l, r);
    RearrangedTrans(was, s, t, lo, hi);
    if TotalPreorder(cmp) {
      RearrangeHole(cmp, s, t, lo, hi, l, r, r, r);
      PartitionSettles(cmp, t, p, lo, hi, l, r, lp, hp);
    }
  }

  lemma HighDone<T(!new)>(cmp: (T, T) -> int, was: seq<T>, s: seq<T>, t: seq<T>, lo: nat, hi: nat,
                          l: nat, m: nat, h: nat, r: nat)
    requires Pending(cmp, was, s, lo, hi, l, m, h, r) && Rearranged(s, t, h, r)
    requires TotalPreorder(cmp) ==> Sorted(cmp, t, h, r)
    ensures Progress(cmp, was, t, lo, hi, l, m)
  {
    hide TotalPreorder, Rearranged;
    RearrangedPart(s, t, lo, hi, h, r);
    RearrangedTrans(was, s, t, lo, hi);
    if TotalPreorder(cmp) {
      RearrangeHole(cmp, s, t, lo, hi, l, m, h, r);
    }
  }

  lemma LowDone<T(!new)>(cmp: (T, T) -> int, was: seq<T>, s: seq<T>, t: seq<T>, lo: nat, hi: nat,
                         l: nat, m: nat, h: nat, r: nat)
    requires Pending(cmp, was, s, lo, hi, l, m, h, r) && Rearranged(s, t, l, m)
    requires TotalPreorder(cmp) ==> Sorted(cmp, t, l, m)
    ensures Progress(cmp, was, t, lo, hi, h, r)
  {
    hide TotalPreorder, Rearranged;
    RearrangedPart(s, t, lo, hi, l, m);
    RearrangedTrans(was, s, t, lo, hi);
    if TotalPreorder(cmp) {
      RearrangeHole(cmp, s, t, lo, hi, l, m, h, r);
    }
  }

  function Pow2(n: nat): (p: nat)
    ensures p >= 1
  {
    if n == 0 then 1 else 2 * Pow2(n - 1)
  }

  /** The partition loop's invariant, and below what each of its moves does to it. */
  ghost predicate Parting<T(!new)>(cmp: (T, T) -> int, was: seq<T>, s: seq<T>, p: T, lo: nat, hi: nat,
                                   i: nat, lp: nat, hp: nat, j: nat): (b: bool)
    ensures b ==> Bounds(|s|, lo, hi, i, lp, hp, j)
  {
    && Bounds(|s|, lo, hi, i, lp, hp, j)
    && Rearranged(was, s, lo, hi)
    && (TotalPreorder(cmp) ==> Regions(cmp, s, p, lo, hi, i, lp, hp, j))
  }

  lemma Exchange<T(!new)>(was: seq<T>, s: seq<T>, lo: nat, hi: nat, i: nat, j: nat)
    requires Rearranged(was, s, lo, hi) && lo <= i < hi && lo <= j < hi && hi <= |s|
    ensures Rearranged(was, Swapped(s, i, j), lo, hi)
  {
    hide Rearranged, Swapped;
    SwapRearranges(s, i, j, lo, hi);
    RearrangedTrans(was, s, Swapped(s, i, j), lo, hi);
  }

  lemma Exchange3<T(!new)>(was: seq<T>, s: seq<T>, lo: nat, hi: nat, i: nat, j: nat, k: nat)
    requires Rearranged(was, s, lo, hi) && hi <= |s|
    requires lo <= i < hi && lo <= j < hi && lo <= k < hi && i != j && i != k
    ensures Rearranged(was, Rotated(s, i, j, k), lo, hi)
  {
    hide Rearranged, Rotated;
    RotateRearranges(s, i, j, k, lo, hi);
    RearrangedTrans(was, s, Rotated(s, i, j, k), lo, hi);
  }

  /** Before the first comparison only the pivot's place is known. */
  lemma Unknown<T(!new)>(cmp: (T, T) -> int, s: seq<T>, lo: nat, hi: nat, mid: nat)
    requires lo <= mid < hi <= |s|
    ensures Parting(cmp, s, s, s[mid], lo, hi, lo, mid, mid, hi - 1)
  {
    if TotalPreorder(cmp) {
      Reflexive(cmp, s[mid]);
    }
  }

  /** A small element is already in place; an element above the pivot is not. */
  lemma Below<T(!new)>(cmp: (T, T) -> int, was: seq<T>, s: seq<T>, p: T, lo: nat, hi: nat, i: nat, lp: nat, hp: nat, j: nat)
    requires Parting(cmp, was, s, p, lo, hi, i, lp, hp, j) && i < lp && cmp(s[i], s[lp]) != 0
    ensures cmp(s[i], s[lp]) < 0 ==> Parting(cmp, was, s, p, lo, hi, i + 1, lp, hp, j)
    ensures cmp(s[i], s[lp]) > 0 && TotalPreorder(cmp) ==> cmp(s[i], p) > 0
  {
    hide Rearranged, TotalPreorder;
    if TotalPreorder(cmp) {
      LikePivot(cmp, s[i], s[lp], p);
    }
  }

  lemma Above<T(!new)>(cmp: (T, T) -> int, was: seq<T>, s: seq<T>, p: T, lo: nat, hi: nat, i: nat, lp: nat, hp: nat, j: nat)
    requires Parting(cmp, was, s, p, lo, hi, i, lp, hp, j) && hp < j && cmp(s[hp], s[j]) < 0
    ensures Parting(cmp, was, s, p, lo, hi, i, lp, hp, j - 1)
  {
    hide Rearranged, TotalPreorder;
    if TotalPreorder(cmp) {
      LikePivot(cmp, s[j], s[hp], p);
    }
  }

  /** An element equal to the pivot joins the middle from below. */
  lemma EqualBelow<T(!new)>(cmp: (T, T) -> int, was: seq<T>, s: seq<T>, p: T, lo: nat, hi: nat, i: nat, lp: nat, hp: nat, j: nat)
    requires Parting(cmp, was, s, p, lo, hi, i, lp, hp, j) && i < lp && cmp(s[i], s[lp]) == 0
    ensures Parting(cmp, was, Swapped(s, i, lp - 1), p, lo, hi, i, lp - 1, hp, j)
  {
    hide Rearranged, TotalPreorder;
    Exchange(was, s, lo, hi, i, lp - 1);
    if TotalPreorder(cmp) {
      LikePivot(cmp, s[i], s[lp], p);
    }
  }

  lemma EqualAbove<T(!new)>(cmp: (T, T) -> int, was: seq<T>, s: seq<T>, p: T, lo: nat, hi: nat, i: nat, lp: nat, hp: nat, j: nat)
    requires Parting(cmp, was, s, p, lo, hi, i, lp, hp, j) && hp < j && cmp(s[hp], s[j]) == 0
    ensures Parting(cmp, was, Swapped(s, hp + 1, j), p, lo, hi, i, lp, hp + 1, j)
    ensures i < lp ==> Swapped(s, hp + 1, j)[i] == s[i]
  {
    hide Rearranged, TotalPreorder;
    Exchange(was, s, lo, hi, hp + 1, j);
    if TotalPreorder(cmp) {
      LikePivot(cmp, s[j], s[hp], p);
    }
  }

  /** A pair on the wrong sides changes places. */
  lemma WrongSides<T(!new)>(cmp: (T, T) -> int, was: seq<T>, s: seq<T>, p: T, lo: nat, hi: nat, i: nat, lp: nat, hp: nat, j: nat)
    requires Parting(cmp, was, s, p, lo, hi, i, lp, hp, j) && i < lp && hp < j && cmp(s[hp], s[j]) > 0
    requires TotalPreorder(cmp) ==> cmp(s[i], p) > 0
    ensures Parting(cmp, was, Swapped(s, i, j), p, lo, hi, i + 1, lp, hp, j - 1)
  {
    hide Rearranged, TotalPreorder;
    Exchange(was, s, lo, hi, i, j);
    if TotalPreorder(cmp) {
      LikePivot(cmp, s[j], s[hp], p);
    }
  }

  /** No room below: the middle moves up one place to let a small element in. */
  lemma ShiftUp<T(!new)>(cmp: (T, T) -> int, was: seq<T>, s: seq<T>, p: T, lo: nat, hi: nat, lp: nat, hp: nat, j: nat)
    requires Parting(cmp, was, s, p, lo, hi, lp, lp, hp, j) && hp < j && cmp(s[hp], s[j]) > 0
    ensures Parting(cmp, was, Rotated(s, lp, hp + 1, j), p, lo, hi, lp + 1, lp + 1, hp + 1, j)
  {
    hide Rearranged, TotalPreorder;
    Exchange3(was, s, lo, hi, lp, hp + 1, j);
    if TotalPreorder(cmp) {
      LikePivot(cmp, s[j], s[hp], p);
    }
  }

  /** No room above: the middle moves down one place to let a large element out. */
  lemma ShiftDown<T(!new)>(cmp: (T, T) -> int, was: seq<T>, s: seq<T>, p: T, lo: nat, hi: nat, i: nat, lp: nat, hp: nat)
    requires Parting(cmp, was, s, p, lo, hi, i, lp, hp, hp) && i < lp
    requires TotalPreorder(cmp) ==> cmp(s[i], p) > 0
    ensures Parting(cmp, was, Rotated(s, hp, lp - 1, i), p, lo, hi, i, lp - 1, hp - 1, hp - 1)
  {
    hide Rearranged, TotalPreorder;
    Exchange3(was, s, lo, hi, hp, lp - 1, i);
  }

  class Sorter<T(!new)> {
    const cmp: (T, T) -> int

    constructor (cmp: (T, T) -> int)
      ensures this.cmp == cmp
    {
      this.cmp := cmp;
    }

    method Qsexc(a: array<T>, i: nat, j: nat)
      requires i < a.Length && j < a.Length
      modifies a
      ensures a[..] == Swapped(old(a[..]), i, j)
    {
      var c := a[i];
      a[i] := a[j];
      a[j] := c;
    }

    method Qstexc(a: array<T>, i: nat, j: nat, k: nat)
      requires i < a.Length && j < a.Length && k < a.Length
      modifies a
      ensures a[..] == Rotated(old(a[..]), i, j, k)
    {
      var c := a[i];
      a[i] := a[k];
      a[k] := a[j];
      a[j] := c;
    }

    /** Splits a[lo..hi] around the value in its middle: [lo, lp) below it, [lp, hp] equal to it,
        (hp, hi) above it. */
    method Partition(a: array<T>, lo: nat, hi: nat) returns (lp: nat, hp: nat, ghost p: T)
      requires lo + 1 < hi <= a.Length
      modifies a
      ensures Parting(cmp, old(a[..]), a[..], p, lo, hi, lp, lp, hp, hp)
    {
      hide Swapped, Rotated, TotalPreorder, Parting;
      lp := lo + (hi - lo) / 2;
      hp := lp;
      p := a[lp];
      var i: nat, j: nat := lo, hi - 1;
      Unknown(cmp, a[..], lo, hi, lp);
      while true
        invariant Parting(cmp, old(a[..]), a[..], p, lo, hi, i, lp, hp, j)
        decreases lp - i + j - hp
      {
        if i < lp {
          var c := cmp(a[i], a[lp]);
          if c == 0 {
            EqualBelow(cmp, old(a[..]), a[..], p, lo, hi, i, lp, hp, j);
            lp := lp - 1;
            Qsexc(a, i, lp);
            continue;
          }
          Below(cmp, old(a[..]), a[..], p, lo, hi, i, lp, hp, j);
          if c < 0 {
            i := i + 1;
            continue;
          }
        }
        while j > hp
          invariant Parting(cmp, old(a[..]), a[..], p, lo, hi, i, lp, hp, j)
          invariant i < lp && TotalPreorder(cmp) ==> cmp(a[i], p) > 0
          decreases lp - i + j - hp
        {
          var c := cmp(a[hp], a[j]);
          if c == 0 {
            EqualAbove(cmp, old(a[..]), a[..], p, lo, hi, i, lp, hp, j);
            hp := hp + 1;
            Qsexc(a, hp, j);
          } else if c > 0 {
            if i == lp {
              ShiftUp(cmp, old(a[..]), a[..], p, lo, hi, lp, hp, j);
              hp := hp + 1;
              Qstexc(a, i, hp, j);
              lp := lp + 1;
              i := lp;
            } else {
              WrongSides(cmp, old(a[..]), a[..], p, lo, hi, i, lp, hp, j);
              Qsexc(a, i, j);
              j := j - 1;
              i := i + 1;
              break continue;
            }
          } else {
            Above(cmp, old(a[..]), a[..], p, lo, hi, i, lp, hp, j);
            j := j - 1;
          }
        }
        if i == lp {
          return;
        }
        ShiftDown(cmp, old(a[..]), a[..], p, lo, hi, i, lp, hp);
        lp := lp - 1;
        Qstexc(a, j, lp, i);
        hp := hp - 1;
        j := hp;
      }
    }

    /** Sorts a[lo..hi]: whatever the comparison does, the elements are rearranged; under a
        total preorder they end in order; nested calls never go deeper than log2 of the count. */
    method Qs1(a: array<T>, lo: nat, hi: nat) returns (ghost depth: nat)
      requires lo <= hi <= a.Length
      modifies a
      ensures Rearranged(old(a[..]), a[..], lo, hi)
      ensures TotalPreorder(cmp) ==> Sorted(cmp, a[..], lo, hi)
      ensures Pow2(depth) <= if lo < hi then hi - lo else 1
      decreases hi - lo
    {
      hide Rearranged, TotalPreorder, Progress, Pending, Parting, Sorted;
      var l, r := lo, hi;
      depth := 0;
      Start(cmp, a[..], lo, hi);
      while r - l > 1
        invariant lo <= l <= r <= hi
        invariant Progress(cmp, old(a[..]), a[..], lo, hi, l, r)
        invariant Pow2(depth) <= if lo < hi then hi - lo else 1
        decreases r - l
      {
        ghost var s := a[..];
        var lp, hp;
        ghost var p, d;
        lp, hp, p := Partition(a, l, r);
        ghost var t := a[..];
        Parted(cmp, old(a[..]), s, t, p, lo, hi, l, r, lp, hp);
        if lp - l >= r - hp {
          d := Qs1(a, hp + 1, r);
          HighDone(cmp, old(a[..]), t, a[..], lo, hi, l, lp, hp + 1, r);
          r := lp;
        } else {
          d := Qs1(a, l, lp);
          LowDone(cmp, old(a[..]), t, a[..], lo, hi, l, lp, hp + 1, r);
          l := hp + 1;
        }
        depth := if d + 1 > depth then d + 1 else depth;
      }
      Finish(cmp, old(a[..]), a[..], lo, hi, l, r);
    }

    /** The whole array, n elements from the start. */
    method Qsort(a: array<T>, n: nat) returns (ghost depth: nat)
      requires n <= a.Length
      modifies a
      ensures multiset(a[..n]) == multiset(old(a[..n])) && a[n..] == old(a[n..])
      ensures TotalPreorder(cmp) ==> forall x, y :: 0 <= x < y < n ==> cmp(a[x], a[y]) <= 0
      ensures Pow2(depth) <= if n > 0 then n else 1
    {
      depth := Qs1(a, 0, n);
      assert a[..n] == a[..][0..n] && old(a[..n]) == old(a[..])[0..n];
      assert a[n..] == a[..][n..] && old(a[n..]) == old(a[..])[n..];
    }
  }
}
