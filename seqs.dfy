/**
 * Sequence helpers shared by the modelled filters: the ascending positions a
 * mask selects, the elements at given positions, and first-occurrence
 * de-duplication.
 */
module Seqs {

  /** The positions `i` with `mask[i]`, in ascending order. */
  function Positions(mask: seq<bool>): (r: seq<nat>)
    ensures |r| <= |mask|
    ensures forall j :: 0 <= j < |r| ==> r[j] < |mask| && mask[r[j]]
    ensures forall j, j' :: 0 <= j < j' < |r| ==> r[j] < r[j']
  {
    if mask == [] then []
    else
      var init := Positions(mask[..|mask| - 1]);
      if mask[|mask| - 1] then init + [|mask| - 1] else init
  }

  lemma PositionsSnoc(mask: seq<bool>, b: bool)
    ensures Positions(mask + [b]) == Positions(mask) + (if b then [|mask|] else [])
  {
    assert (mask + [b])[..|mask|] == mask;
  }

  /** Extending a prefix of the mask by one element. */
  lemma PositionsPrefixStep(mask: seq<bool>, i: nat)
    requires i < |mask|
    ensures Positions(mask[..i + 1]) == if mask[i] then Positions(mask[..i]) + [i] else Positions(mask[..i])
  {
    PositionsSnoc(mask[..i], mask[i]);
    assert mask[..i + 1] == mask[..i] + [mask[i]];
  }

  /** The empty prefix selects nothing; the whole prefix selects what the mask does. */
  lemma PositionsBounds(mask: seq<bool>)
    ensures Positions(mask[..0]) == [] && Positions(mask[..|mask|]) == Positions(mask)
  {
    assert mask[..|mask|] == mask;
  }

  /** Positions are exactly the selected indices: `i in Positions(mask)` iff `mask[i]`. */
  lemma {:induction false} PositionsMembership(mask: seq<bool>, i: nat)
    ensures i in Positions(mask) <==> i < |mask| && mask[i]
    decreases |mask|
  {
    if mask != [] {
      var init := mask[..|mask| - 1];
      PositionsMembership(init, i);
      if i < |init| {
        assert init[i] == mask[i];
      }
    }
  }

  /** The elements of `s` at positions `pos`, in the order of `pos`. */
  function Pick<T>(s: seq<T>, pos: seq<nat>): (r: seq<T>)
    requires forall j :: 0 <= j < |pos| ==> pos[j] < |s|
    ensures |r| == |pos|
    ensures forall j :: 0 <= j < |pos| ==> r[j] == s[pos[j]]
  {
    seq(|pos|, j requires 0 <= j < |pos| => s[pos[j]])
  }

  lemma PickSnoc<T>(s: seq<T>, pos: seq<nat>, p: nat)
    requires forall j :: 0 <= j < |pos| ==> pos[j] < |s|
    requires p < |s|
    ensures Pick(s, pos + [p]) == Pick(s, pos) + [s[p]]
  {
  }

  /** A prefix of `s` selects the same positions within the prefix of the mask. */
  lemma PickPrefix<T>(s: seq<T>, pos: seq<nat>, n: nat)
    requires n <= |s|
    requires forall j :: 0 <= j < |pos| ==> pos[j] < n
    ensures Pick(s[..n], pos) == Pick(s, pos)
  {
  }

  predicate NoDup<T(==)>(s: seq<T>)
  {
    forall i, j :: 0 <= i < j < |s| ==> s[i] != s[j]
  }

  /**
   * Keeps the first occurrence of every element, in order: what a loop that
   * pushes an element only when the vector does not contain it yet produces.
   */
  function Dedup<T(==)>(s: seq<T>): (r: seq<T>)
  {
    if s == [] then []
    else
      var d := Dedup(s[..|s| - 1]);
      if s[|s| - 1] in d then d else d + [s[|s| - 1]]
  }

  lemma DedupSnoc<T>(s: seq<T>, x: T)
    ensures Dedup(s + [x]) == if x in Dedup(s) then Dedup(s) else Dedup(s) + [x]
  {
    assert (s + [x])[..|s|] == s;
  }

  /** De-duplication loses no element, adds none, and leaves no duplicate. */
  lemma {:induction false} DedupProperties<T>(s: seq<T>)
    ensures NoDup(Dedup(s))
    ensures forall x :: x in Dedup(s) <==> x in s
    ensures |Dedup(s)| <= |s|
  {
    if s != [] {
      var init := s[..|s| - 1];
      DedupProperties(init);
      assert s == init + [s[|s| - 1]];
    }
  }

  /** A sequence without duplicates is its own de-duplication. */
  lemma {:induction false} DedupOfNoDup<T>(s: seq<T>)
    requires NoDup(s)
    ensures Dedup(s) == s
  {
    if s != [] {
      var init := s[..|s| - 1];
      assert NoDup(init);
      DedupOfNoDup(init);
      DedupProperties(init);
      assert s[|s| - 1] !in init;
      assert s == init + [s[|s| - 1]];
    }
  }

  /** A concatenation has no duplicates exactly when its halves have none and share nothing. */
  lemma NoDupConcat<T>(a: seq<T>, b: seq<T>)
    ensures NoDup(a + b) <==> NoDup(a) && NoDup(b) && forall x :: x in a ==> x !in b
  {
    if NoDup(a + b) {
      forall i, j | 0 <= i < |a| && 0 <= j < |b| ensures a[i] != b[j] {
        assert (a + b)[i] == a[i] && (a + b)[|a| + j] == b[j];
      }
      assert NoDup(a) by {
        forall i, j | 0 <= i < j < |a| ensures a[i] != a[j] {
          assert (a + b)[i] == a[i] && (a + b)[j] == a[j];
        }
      }
      assert NoDup(b) by {
        forall i, j | 0 <= i < j < |b| ensures b[i] != b[j] {
          assert (a + b)[|a| + i] == b[i] && (a + b)[|a| + j] == b[j];
        }
      }
    } else if NoDup(a) && NoDup(b) && forall x :: x in a ==> x !in b {
      forall i, j | 0 <= i < j < |a + b| ensures (a + b)[i] != (a + b)[j] {
        if j < |a| {
          assert (a + b)[i] == a[i] && (a + b)[j] == a[j];
        } else if i < |a| {
          assert (a + b)[i] == a[i] && (a + b)[j] == b[j - |a|];
          assert a[i] in a && b[j - |a|] in b;
        } else {
          assert (a + b)[i] == b[i - |a|] && (a + b)[j] == b[j - |a|];
        }
      }
    }
  }

  /** The concatenation of a sequence of blocks. */
  function Flatten<T>(bs: seq<seq<T>>): seq<T>
    decreases |bs|
  {
    if bs == [] then [] else Flatten(bs[..|bs| - 1]) + bs[|bs| - 1]
  }

  lemma {:induction false} FlattenMembership<T>(bs: seq<seq<T>>, x: T)
    ensures x in Flatten(bs) <==> exists i :: 0 <= i < |bs| && x in bs[i]
  {
    if bs != [] {
      var n := |bs| - 1;
      var pre := bs[..n];
      FlattenMembership(pre, x);
      if x in Flatten(pre) {
        var i :| 0 <= i < |pre| && x in pre[i];
        assert bs[i] == pre[i];
      }
      forall i | 0 <= i < n && x in bs[i] ensures x in Flatten(pre) {
        assert pre[i] == bs[i];
      }
    }
  }

  /** Blocks without duplicates that pairwise share nothing flatten without duplicates. */
  lemma {:induction false} FlattenNoDup<T>(bs: seq<seq<T>>)
    requires forall i :: 0 <= i < |bs| ==> NoDup(bs[i])
    requires forall i, j, x :: 0 <= i < j < |bs| && x in bs[i] ==> x !in bs[j]
    ensures NoDup(Flatten(bs))
  {
    if bs != [] {
      var n := |bs| - 1;
      var pre := bs[..n];
      forall i | 0 <= i < |pre| ensures NoDup(pre[i]) {
        assert pre[i] == bs[i];
      }
      forall i, j, x | 0 <= i < j < |pre| && x in pre[i] ensures x !in pre[j] {
        assert pre[i] == bs[i] && pre[j] == bs[j];
      }
      FlattenNoDup(pre);
      forall x | x in Flatten(pre) ensures x !in bs[n] {
        FlattenMembership(pre, x);
        var i :| 0 <= i < |pre| && x in pre[i];
        assert pre[i] == bs[i];
      }
      NoDupConcat(Flatten(pre), bs[n]);
    }
  }

  /** Duplicates in a later block survive flattening. */
  lemma {:induction false} FlattenNoDupBlocks<T>(bs: seq<seq<T>>)
    requires NoDup(Flatten(bs))
    ensures forall i :: 0 <= i < |bs| ==> NoDup(bs[i])
    ensures forall i, j, x :: 0 <= i < j < |bs| && x in bs[i] ==> x !in bs[j]
  {
    if bs != [] {
      var n := |bs| - 1;
      var pre := bs[..n];
      NoDupConcat(Flatten(pre), bs[n]);
      FlattenNoDupBlocks(pre);
      forall i | 0 <= i < n ensures NoDup(bs[i]) {
        assert pre[i] == bs[i];
      }
      forall i, j, x | 0 <= i < j < |bs| && x in bs[i] ensures x !in bs[j] {
        assert pre[i] == bs[i];
        if j < n {
          assert pre[j] == bs[j];
        } else {
          FlattenMembership(pre, x);
        }
      }
    }
  }

  /** The elements of a sequence. */
  function Elems<T(!new)>(s: seq<T>): (r: set<T>)
    ensures forall x :: x in r <==> x in s
  {
    set x | x in s
  }

  lemma FlattenPrefix<T>(bs: seq<seq<T>>, i: nat)
    requires i < |bs|
    ensures Flatten(bs[..i + 1]) == Flatten(bs[..i]) + bs[i]
  {
    assert bs[..i + 1][..i] == bs[..i];
  }

  lemma {:induction false} FlattenConcat<T>(a: seq<seq<T>>, b: seq<seq<T>>)
    ensures Flatten(a + b) == Flatten(a) + Flatten(b)
  {
    if b != [] {
      var n := |b| - 1;
      assert (a + b)[..|a + b| - 1] == a + b[..n];
      FlattenConcat(a, b[..n]);
    } else {
      assert a + b == a;
    }
  }

  function Map<A, B>(s: seq<A>, f: A -> B): (r: seq<B>)
    ensures |r| == |s| && forall i :: 0 <= i < |s| ==> r[i] == f(s[i])
  {
    seq(|s|, i requires 0 <= i < |s| => f(s[i]))
  }

  lemma MapPrefix<A, B>(s: seq<A>, f: A -> B, n: nat)
    requires n <= |s|
    ensures Map(s, f)[..n] == Map(s[..n], f)
  {
  }

  lemma MapConcat<A, B>(a: seq<A>, b: seq<A>, f: A -> B)
    ensures Map(a + b, f) == Map(a, f) + Map(b, f)
  {
  }

  lemma MapConcat3<A, B>(a: seq<A>, b: seq<A>, c: seq<A>, f: A -> B)
    ensures Map(a + b + c, f) == Map(a, f) + Map(b, f) + Map(c, f)
  {
    MapConcat(a + b, c, f);
    MapConcat(a, b, f);
  }

  /** Mapping a flattening is flattening the mapped blocks. */
  lemma {:induction false} MapFlatten<A, B>(bs: seq<seq<A>>, f: A -> B)
    ensures Map(Flatten(bs), f) == Flatten(seq(|bs|, i requires 0 <= i < |bs| => Map(bs[i], f)))
  {
    var mbs := seq(|bs|, i requires 0 <= i < |bs| => Map(bs[i], f));
    if bs != [] {
      var n := |bs| - 1;
      MapFlatten(bs[..n], f);
      MapConcat(Flatten(bs[..n]), bs[n], f);
      assert mbs[..n] == seq(n, i requires 0 <= i < n => Map(bs[..n][i], f));
    }
  }

  /** The last element of a concatenation with a non-empty tail, and what precedes it. */
  lemma ConcatDropLast<T>(a: seq<T>, b: seq<T>)
    requires b != []
    ensures (a + b)[..|a + b| - 1] == a + b[..|b| - 1]
    ensures (a + b)[|a + b| - 1] == b[|b| - 1]
  {
  }

  /** Blocks whose images are pairwise distinct, within and across blocks, flatten to distinct images. */
  lemma FlattenMapNoDup<A, B>(bs: seq<seq<A>>, f: A -> B)
    requires forall i :: 0 <= i < |bs| ==> NoDup(Map(bs[i], f))
    requires forall i, j, x, y :: 0 <= i < j < |bs| && x in bs[i] && y in bs[j] ==> f(x) != f(y)
    ensures NoDup(Map(Flatten(bs), f))
  {
    var mbs := seq(|bs|, i requires 0 <= i < |bs| => Map(bs[i], f));
    MapFlatten(bs, f);
    forall i | 0 <= i < |mbs| ensures NoDup(mbs[i]) {
      assert mbs[i] == Map(bs[i], f);
    }
    forall i, j, z | 0 <= i < j < |mbs| && z in mbs[i] ensures z !in mbs[j] {
      assert mbs[i] == Map(bs[i], f) && mbs[j] == Map(bs[j], f);
      var p :| 0 <= p < |bs[i]| && Map(bs[i], f)[p] == z;
      var x := bs[i][p];
      assert x in bs[i] && f(x) == z;
      forall q | 0 <= q < |bs[j]| ensures Map(bs[j], f)[q] != z {
        var y := bs[j][q];
        assert y in bs[j];
        assert f(x) != f(y);
      }
    }
    FlattenNoDup(mbs);
  }

  /** Blocks whose images agree pointwise flatten to the same image. */
  lemma FlattenMapAgree<A, C, B>(xs: seq<seq<A>>, f: A -> B, ys: seq<seq<C>>, g: C -> B)
    requires |xs| == |ys| && forall i :: 0 <= i < |xs| ==> Map(xs[i], f) == Map(ys[i], g)
    ensures Map(Flatten(xs), f) == Map(Flatten(ys), g)
  {
    MapFlatten(xs, f);
    MapFlatten(ys, g);
    assert seq(|xs|, i requires 0 <= i < |xs| => Map(xs[i], f)) == seq(|ys|, i requires 0 <= i < |ys| => Map(ys[i], g));
  }

  /** The bounds of a nested loop over block `b` after `done`: nothing taken, everything taken. */
  lemma TakeBounds<T>(done: seq<T>, b: seq<T>)
    ensures done + b[..0] == done && b[..|b|] == b
  {
  }

  /** A sequence that agrees with `s` and then holds `y` is `s + [y]`. */
  lemma SnocEq<T>(r: seq<T>, s: seq<T>, y: T)
    requires |r| == |s| + 1 && r[|s|] == y && forall p :: 0 <= p < |s| ==> r[p] == s[p]
    ensures r == s + [y]
  {
  }

  /** A non-empty sequence is its front followed by its last element. */
  lemma SplitLast<T>(s: seq<T>)
    requires s != []
    ensures s == s[..|s| - 1] + [s[|s| - 1]]
  {
  }

  lemma AppendEmpty<T>(a: seq<T>)
    ensures a + [] == a
  {
  }

  /** Two pushes append both elements, in order. */
  lemma PushTwo<T>(s: seq<T>, x: T, y: T)
    ensures s + [x] + [y] == s + ([x] + [y])
  {
  }

  /** Taking one more element. */
  lemma TakeStep<T>(b: seq<T>, j: nat)
    requires j < |b|
    ensures b[..j + 1][..j] == b[..j] && b[..j + 1][j] == b[j] && b[..j + 1] == b[..j] + [b[j]]
  {
  }

  /** Position `|a| + j` of `a + b`, and what precedes it. */
  lemma ConcatAt<T>(a: seq<T>, b: seq<T>, j: nat)
    requires j < |b|
    ensures (a + b)[..|a| + j] == a + b[..j] && (a + b)[|a| + j] == b[j]
    ensures a + b[..j] + [b[j]] == a + b[..j + 1]
  {
    TakeStep(b, j);
  }

  /** A flattening splits at any block. */
  lemma FlattenSplit<T>(bs: seq<seq<T>>, i: nat)
    requires i <= |bs|
    ensures Flatten(bs) == Flatten(bs[..i]) + Flatten(bs[i..])
  {
    assert bs == bs[..i] + bs[i..];
    FlattenConcat(bs[..i], bs[i..]);
  }
}
