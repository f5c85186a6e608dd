/** Who owns each block of the disk: every block is in exactly one place, on the
    free list or in one file's list. */
module LfsBlocks {
  import opened LfsDisk

  datatype Loc = FreeAt(p: nat) | Of(file: nat, k: nat)

  /** `own` names the one place of every block, and that place holds the block.
      A free list is a stack: its head is the last element. */
  ghost predicate Partition(own: map<int, Loc>, free: seq<Id>, lists: seq<seq<Id>>) {
    && (forall d :: d in own ==>
          match own[d]
          case FreeAt(p) => p < |free| && free[p] == d
          case Of(f, k) => f < |lists| && k < |lists[f]| && lists[f][k] == d)
    && (forall p :: 0 <= p < |free| ==> free[p] in own && own[free[p]] == FreeAt(p))
    && (forall f, k :: 0 <= f < |lists| && 0 <= k < |lists[f]| ==>
          lists[f][k] in own && own[lists[f][k]] == Of(f, k))
  }

  ghost predicate Covers(own: map<int, Loc>, lo: int, hi: int) {
    forall d :: d in own <==> lo <= d < hi
  }

  function Total(lists: seq<seq<Id>>): (n: nat) {
    if lists == [] then 0 else Total(lists[..|lists| - 1]) + |lists[|lists| - 1]|
  }

  function Top(free: seq<Id>): Id {
    if free == [] then NULLID else free[|free| - 1]
  }

  function Pop(free: seq<Id>): (r: seq<Id>)
    requires free != []
  {
    free[..|free| - 1]
  }

  function Reversed(s: seq<Id>): (r: seq<Id>)
    ensures |r| == |s| && forall i :: 0 <= i < |s| ==> r[i] == s[|s| - 1 - i]
  {
    seq(|s|, i requires 0 <= i < |s| => s[|s| - 1 - i])
  }

  /** Pop the free list onto the end of file f's list. */
  lemma Take(own: map<int, Loc>, free: seq<Id>, lists: seq<seq<Id>>, f: nat)
    requires Partition(own, free, lists) && free != [] && f < |lists|
    ensures Partition(own[Top(free) := Of(f, |lists[f]|)], Pop(free), lists[f := lists[f] + [Top(free)]])
  {
  }

  function Freed(own: map<int, Loc>, f: nat, base: nat): map<int, Loc> {
    map d | d in own :: if own[d].Of? && own[d].file == f then FreeAt(base + own[d].k) else own[d]
  }

  /** Push file f's list on the free list, first block first. */
  lemma GiveBack(own: map<int, Loc>, free: seq<Id>, lists: seq<seq<Id>>, f: nat)
    requires Partition(own, free, lists) && f < |lists|
    ensures Partition(Freed(own, f, |free|), free + lists[f], lists[f := []])
  {
    var own', free', lists' := Freed(own, f, |free|), free + lists[f], lists[f := []];
    forall d | d in own
      ensures match own'[d]
              case FreeAt(p) => p < |free'| && free'[p] == d
              case Of(g, k) => g < |lists'| && k < |lists'[g]| && lists'[g][k] == d
    {
      if own[d].Of? && own[d].file == f {
        assert free'[|free| + own[d].k] == lists[f][own[d].k];
      }
    }
    FreedFree(own, free, lists, f);
    forall g, k | 0 <= g < |lists'| && 0 <= k < |lists'[g]| ensures lists'[g][k] in own' && own'[lists'[g][k]] == Of(g, k) {
      assert own[lists[g][k]] == Of(g, k);
    }
  }

  lemma FreedFree(own: map<int, Loc>, free: seq<Id>, lists: seq<seq<Id>>, f: nat)
    requires Partition(own, free, lists) && f < |lists|
    ensures var own', free' := Freed(own, f, |free|), free + lists[f];
            forall p :: 0 <= p < |free'| ==> free'[p] in own' && own'[free'[p]] == FreeAt(p)
  {
    var own', free' := Freed(own, f, |free|), free + lists[f];
    forall p | 0 <= p < |free'| ensures free'[p] in own' && own'[free'[p]] == FreeAt(p) {
      if p < |free| {
        assert own[free[p]] == FreeAt(p);
      } else {
        assert own[lists[f][p - |free|]] == Of(f, p - |free|);
      }
    }
  }

  function ReversedOwner(own: map<int, Loc>, f: nat, n: nat): map<int, Loc> {
    map d | d in own :: if own[d].Of? && own[d].file == f && own[d].k < n then Of(f, n - 1 - own[d].k) else own[d]
  }

  /** Reversing one file's list keeps the partition. */
  lemma ReverseList(own: map<int, Loc>, free: seq<Id>, lists: seq<seq<Id>>, f: nat)
    requires Partition(own, free, lists) && f < |lists|
    ensures Partition(ReversedOwner(own, f, |lists[f]|), free, lists[f := Reversed(lists[f])])
  {
    var n := |lists[f]|;
    var own', lists' := ReversedOwner(own, f, n), lists[f := Reversed(lists[f])];
    forall d | d in own && own[d].Of?
      ensures own'[d].file == own[d].file && own'[d].k < |lists'[own[d].file]| && lists'[own[d].file][own'[d].k] == d
    {
      assert own[d].k < |lists[own[d].file]| && lists[own[d].file][own[d].k] == d;
    }
    assert forall p :: 0 <= p < |free| ==> own'[free[p]] == own[free[p]];
    forall g, k | 0 <= g < |lists'| && 0 <= k < |lists'[g]|
      ensures lists'[g][k] in own' && own'[lists'[g][k]] == Of(g, k)
    {
      if g == f {
        assert own[lists[f][n - 1 - k]] == Of(f, n - 1 - k);
      } else {
        assert own[lists[g][k]] == Of(g, k);
      }
    }
  }

  lemma AddList(own: map<int, Loc>, free: seq<Id>, lists: seq<seq<Id>>)
    requires Partition(own, free, lists)
    ensures Partition(own, free, lists + [[]])
  {
    var lists' := lists + [[]];
    forall d | d in own && own[d].Of?
      ensures own[d].file < |lists'| && own[d].k < |lists'[own[d].file]| && lists'[own[d].file][own[d].k] == d
    {
      assert lists'[own[d].file] == lists[own[d].file];
    }
  }

  lemma DropFree(own: map<int, Loc>, free: seq<Id>, lists: seq<seq<Id>>)
    requires Partition(own, free, lists) && free != []
    ensures Partition(own - {Top(free)}, Pop(free), lists) && |own - {Top(free)}| == |own| - 1
  {
    SizeMinus(own, Top(free));
  }

  lemma DropLast(own: map<int, Loc>, free: seq<Id>, lists: seq<seq<Id>>, f: nat)
    requires Partition(own, free, lists) && f < |lists| && lists[f] != []
    ensures var d := lists[f][|lists[f]| - 1];
            Partition(own - {d}, free, lists[f := Pop(lists[f])]) && |own - {d}| == |own| - 1
  {
    SizeMinus(own, lists[f][|lists[f]| - 1]);
  }

  lemma SizeMinus(own: map<int, Loc>, d: int)
    requires d in own
    ensures |own - {d}| == |own| - 1
  {
    assert own.Keys == (own - {d}).Keys + {d};
    assert |own.Keys| == |own| && |(own - {d}).Keys| == |own - {d}|;
  }

  /** Conservation: free blocks and blocks in files add up to the blocks there are. */
  lemma {:induction false} Conservation(own: map<int, Loc>, free: seq<Id>, lists: seq<seq<Id>>)
    requires Partition(own, free, lists)
    ensures |own| == |free| + Total(lists)
    decreases |free| + Total(lists) + |lists|
  {
    var last := |lists| - 1;
    if free != [] {
      DropFree(own, free, lists);
      Conservation(own - {Top(free)}, Pop(free), lists);
    } else if lists == [] {
      assert forall d :: d !in own;
      assert own.Keys == {};
      assert |own.Keys| == |own|;
    } else if lists[last] == [] {
      assert Partition(own, free, lists[..last]);
      Conservation(own, free, lists[..last]);
    } else {
      DropLast(own, free, lists, last);
      assert lists[last := Pop(lists[last])][..last] == lists[..last];
      Conservation(own - {lists[last][|lists[last]| - 1]}, free, lists[last := Pop(lists[last])]);
    }
  }

  lemma RangeSize(own: map<int, Loc>, lo: int, hi: int)
    requires Covers(own, lo, hi) && lo <= hi
    ensures |own| == hi - lo
    decreases hi - lo
  {
    if lo == hi {
      assert forall d :: d !in own;
      assert own.Keys == {};
      assert |own.Keys| == |own|;
    } else {
      SizeMinus(own, hi - 1);
      RangeSize(own - {hi - 1}, lo, hi - 1);
    }
  }

  lemma {:induction false} ListFits(lists: seq<seq<Id>>, f: nat)
    requires f < |lists|
    ensures |lists[f]| <= Total(lists)
  {
    if f < |lists| - 1 {
      ListFits(lists[..|lists| - 1], f);
    }
  }

  /** No file holds more blocks than the disk has. */
  lemma FileFits(own: map<int, Loc>, free: seq<Id>, lists: seq<seq<Id>>, lo: int, hi: int, f: nat)
    requires Partition(own, free, lists) && Covers(own, lo, hi) && lo <= hi && f < |lists|
    ensures |free| + Total(lists) == hi - lo && |lists[f]| <= hi - lo
  {
    Conservation(own, free, lists);
    RangeSize(own, lo, hi);
    ListFits(lists, f);
  }
}
