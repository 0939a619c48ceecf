/**
 * How `getCombinedResults` (src/app/crypto/utils.ts:158-176) partitions its
 * input: full blocks of `f` consecutive items cut from the newest end, listed
 * oldest first, with a short remainder at the oldest end left over.
 */
module Chunking {

  /** The full blocks of `xs`, oldest first, cut from the newest end. */
  function Blocks<T>(xs: seq<T>, f: nat): (blocks: seq<seq<T>>)
    requires f >= 1
    ensures forall k :: 0 <= k < |blocks| ==> |blocks[k]| == f
    decreases |xs|
  {
    if |xs| < f then [] else Blocks(xs[..|xs| - f], f) + [xs[|xs| - f..]]
  }

  lemma MulAtLeast(f: nat, x: int)
    requires x >= 1
    ensures f * x >= f
  {
    var y: nat := x - 1;
    assert f * x == f * y + f;
  }

  /** Quotient and remainder are unique. */
  lemma DivUnique(n: int, f: nat, q: int, r: int)
    requires f >= 1 && 0 <= r < f && n == f * q + r
    ensures n / f == q && n % f == r
  {
    var q', r' := n / f, n % f;
    assert f * q + r == f * q' + r';
    if q > q' {
      assert f * (q - q') == f * q - f * q';
      MulAtLeast(f, q - q');
    } else if q < q' {
      assert f * (q' - q) == f * q' - f * q;
      MulAtLeast(f, q' - q);
    }
  }

  lemma DivStep(n: nat, f: nat)
    requires f >= 1 && n >= f
    ensures (n - f) / f == n / f - 1 && (n - f) % f == n % f
  {
    var q, r := n / f, n % f;
    assert n - f == f * (q - 1) + r;
    DivUnique(n - f, f, q - 1, r);
  }

  /** Prepending a full block to a whole number of blocks prepends that block. */
  lemma {:induction false} BlocksPrepend<T>(block: seq<T>, rest: seq<T>, f: nat)
    requires f >= 1 && |block| == f && |rest| % f == 0
    ensures Blocks(block + rest, f) == [block] + Blocks(rest, f)
    decreases |rest|
  {
    var all := block + rest;
    if rest == [] {
      assert all[..|all| - f] == [] && all[|all| - f..] == block;
    } else {
      assert |rest| >= f by {
        if |rest| < f { DivUnique(|rest|, f, 0, |rest|); }
      }
      DivStep(|rest|, f);
      var k := |rest| - f;
      assert all[..|all| - f] == block + rest[..k];
      assert all[|all| - f..] == rest[k..];
      BlocksPrepend(block, rest[..k], f);
    }
  }

  /** Only the oldest `|xs| % f` items are left out of the blocks. */
  lemma {:induction false} BlocksDropOldest<T>(xs: seq<T>, f: nat)
    requires f >= 1
    ensures Blocks(xs, f) == Blocks(xs[|xs| % f..], f)
    decreases |xs|
  {
    var n := |xs|;
    var tail := xs[n % f..];
    if n < f {
      DivUnique(n, f, 0, n);
    } else {
      DivStep(n, f);
      var front := xs[..n - f];
      BlocksDropOldest(front, f);
      assert front[|front| % f..] == tail[..|tail| - f];
      assert xs[n - f..] == tail[|tail| - f..];
    }
  }

  /** There are exactly `|xs| / f` blocks. */
  lemma {:induction false} BlocksLength<T>(xs: seq<T>, f: nat)
    requires f >= 1
    ensures |Blocks(xs, f)| == |xs| / f
    decreases |xs|
  {
    var n := |xs|;
    if n < f {
      DivUnique(n, f, 0, n);
    } else {
      DivStep(n, f);
      BlocksLength(xs[..n - f], f);
    }
  }

  /** Arithmetic for BlocksAt: block `k` lies inside the input, the last one at its end. */
  lemma BlockBounds(n: nat, f: nat, k: nat)
    requires f >= 1 && k < n / f
    ensures n >= f
    ensures n % f + (k + 1) * f <= n
    ensures k == n / f - 1 ==> n % f + k * f == n - f
  {
    var r := n % f;
    var m := n / f;
    assert n == f * m + r;
    if n < f { DivUnique(n, f, 0, n); }
    assert (k + 1) * f <= m * f by {
      var d: nat := m - (k + 1);
      assert m * f == (k + 1) * f + d * f;
    }
    if k == m - 1 {
      assert m * f == k * f + f;
    }
  }

  /** Block `k` is the contiguous run of `f` items starting `k` blocks after the leftover. */
  lemma {:induction false} BlocksAt<T>(xs: seq<T>, f: nat, k: nat)
    requires f >= 1 && k < |xs| / f
    ensures var r := |xs| % f;
            && r + (k + 1) * f <= |xs|
            && k < |Blocks(xs, f)|
            && Blocks(xs, f)[k] == xs[r + k * f .. r + (k + 1) * f]
    decreases |xs|
  {
    var n := |xs|;
    var r := n % f;
    BlockBounds(n, f, k);
    DivStep(n, f);
    var front := xs[..n - f];
    BlocksLength(front, f);
    if k < n / f - 1 {
      BlocksAt(front, f, k);
      assert front[r + k * f .. r + (k + 1) * f] == xs[r + k * f .. r + (k + 1) * f];
    }
  }

  /** With `f == 1` every item is its own block. */
  lemma {:induction false} BlocksOfOne<T>(xs: seq<T>)
    ensures Blocks(xs, 1) == seq(|xs|, i requires 0 <= i < |xs| => [xs[i]])
    decreases |xs|
  {
    if xs != [] {
      var n := |xs|;
      BlocksOfOne(xs[..n - 1]);
      assert xs[n - 1..] == [xs[n - 1]];
    }
  }
}
