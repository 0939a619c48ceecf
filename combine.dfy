/**
 * The query-side view and downsampling of src/app/crypto/utils.ts:117-176:
 * `getTweetResultMapped`, `getCombinedResultAveraged` and `getCombinedResults`.
 */
module Combine {
  import opened Wrappers
  import opened CryptoTypes
  import opened Chunking

  /** How many tweet ids a view keeps as a display sample. */
  const TWEET_ID_SAMPLE_SIZE: nat := 5

  function Min(a: nat, b: nat): nat
  {
    if a <= b then a else b
  }

  /** `result.tweetIds || []` */
  function IdsOrEmpty(ids: Option<seq<TweetId>>): seq<TweetId>
  {
    match ids
    case None => []
    case Some(s) => s
  }

  // ---------------------------------------------------------------------------
  // The mapped view of one stored result

  /**
   * The view of a present result: the true id count is kept in `tweetCount`,
   * the ids are cut to the first TWEET_ID_SAMPLE_SIZE in their original order,
   * and nothing else changes.
   */
  function MappedView(result: Result): (mapped: ResultMapped)
    ensures mapped.tweetCount == |IdsOrEmpty(result.tweetIds)|
    ensures |mapped.tweetIds| == Min(TWEET_ID_SAMPLE_SIZE, mapped.tweetCount)
    ensures mapped.tweetIds <= IdsOrEmpty(result.tweetIds)
    ensures mapped.StampOf() == result.StampOf() && mapped.rank == result.rank
  {
    var tweetIds := IdsOrEmpty(result.tweetIds);
    ResultMapped(result.timeMs, result.coin, tweetIds[..Min(TWEET_ID_SAMPLE_SIZE, |tweetIds|)],
                 result.usdRate, result.rank, |tweetIds|)
  }

  /** `getTweetResultMapped`: an absent result stays absent. */
  function GetTweetResultMapped(result: Option<Result>): (mapped: Option<ResultMapped>)
    ensures mapped.None? <==> result.None?
    ensures result.Some? ==> mapped == Some(MappedView(result.value))
  {
    match result
    case None => None
    case Some(r) => Some(MappedView(r))
  }

  // ---------------------------------------------------------------------------
  // Rounding

  /**
   * `r == Math.round(sum / divisor)`: `r` is the integer nearest to the
   * quotient, a half rounding up.
   */
  ghost predicate IsRounded(r: nat, sum: nat, divisor: nat)
    requires divisor >= 1
  {
    (r as real) - 0.5 <= (sum as real) / (divisor as real) < (r as real) + 0.5
  }

  /** Dividing a real bounded by `lo * d` and `hi * d` by a positive `d`. */
  lemma QuotientBounds(lo: real, hi: real, x: real, d: real)
    requires d > 0.0 && lo * d <= x < hi * d
    ensures lo <= x / d < hi
  {
    var y := x / d;
    assert y * d == x;
    assert (y - lo) * d == x - lo * d;
    assert (hi - y) * d == hi * d - x;
    ProductSign(y - lo, d);
    ProductSign(hi - y, d);
  }

  /** A product with a positive factor has the sign of the other factor. */
  lemma ProductSign(a: real, d: real)
    requires d > 0.0
    ensures a * d >= 0.0 ==> a >= 0.0
    ensures a * d > 0.0 ==> a > 0.0
  {
  }

  lemma RoundBounds(sum: nat, divisor: nat, q: int)
    requires divisor >= 1
    requires 2 * divisor * q <= 2 * sum + divisor < 2 * divisor * q + 2 * divisor
    ensures (q as real) - 0.5 <= (sum as real) / (divisor as real) < (q as real) + 0.5
  {
    var d, x, r := divisor as real, sum as real, q as real;
    var m := divisor * q;
    assert m as real == d * r;
    assert 2.0 * (d * r) <= 2.0 * x + d < 2.0 * (d * r) + 2.0 * d;
    assert (r - 0.5) * d == d * r - 0.5 * d;
    assert (r + 0.5) * d == d * r + 0.5 * d;
    QuotientBounds(r - 0.5, r + 0.5, x, d);
  }

  /** `Math.round(sum / divisor)` in integers, for a non-negative sum and a positive divisor. */
  function RoundDiv(sum: nat, divisor: nat): nat
    requires divisor >= 1
  {
    (2 * sum + divisor) / (2 * divisor)
  }

  /** RoundDiv is `Math.round` of the exact quotient. */
  lemma RoundDivRounds(sum: nat, divisor: nat)
    requires divisor >= 1
    ensures IsRounded(RoundDiv(sum, divisor), sum, divisor)
  {
    RoundBounds(sum, divisor, RoundDiv(sum, divisor));
  }

  /** Dividing by one is the identity. */
  lemma RoundDivByOne(x: nat)
    ensures RoundDiv(x, 1) == x
  {
  }

  // ---------------------------------------------------------------------------
  // Merging two views

  /**
   * The both-present case of `getCombinedResultAveraged`: every field but the
   * counts and the ids comes from `a`, the ids are `a`'s then `b`'s, and each
   * count is the rounded quotient of the two counts' sum by `frequency`. The
   * merged negative count sums `a`'s NEUTRAL count with `b`'s negative count,
   * as the code does.
   */
  function Averaged(a: ResultMapped, b: ResultMapped, frequency: nat): (c: ResultMapped)
    requires frequency >= 1
    ensures c.StampOf() == a.StampOf()
    ensures c.tweetIds == a.tweetIds + b.tweetIds
  {
    var sa, sb := a.rank.sentiment, b.rank.sentiment;
    var fa, fb := a.rank.sentimentByFollowers, b.rank.sentimentByFollowers;
    a.(
      tweetCount := RoundDiv(a.tweetCount + b.tweetCount, frequency),
      tweetIds := a.tweetIds + b.tweetIds,
      rank := a.rank.(
        sentiment := Sentiment(
          positive := RoundDiv(sa.positive + sb.positive, frequency),
          neutral := RoundDiv(sa.neutral + sb.neutral, frequency),
          negative := RoundDiv(sa.neutral + sb.negative, frequency)),
        sentimentByFollowers := SentimentByFollowers(
          positive := RoundDiv(fa.positive + fb.positive, frequency),
          neutral := RoundDiv(fa.neutral + fb.neutral, frequency),
          negative := RoundDiv(fa.negative + fb.negative, frequency),
          totalFollowers := RoundDiv(fa.totalFollowers + fb.totalFollowers, frequency))))
  }

  /**
   * Each count of a merge is the `Math.round` of the two counts' sum divided
   * by `frequency`; the negative count sums `a`'s NEUTRAL count with `b`'s
   * negative count, as the code does.
   */
  lemma AveragedRounds(a: ResultMapped, b: ResultMapped, frequency: nat)
    requires frequency >= 1
    ensures var c := Averaged(a, b, frequency);
            && IsRounded(c.tweetCount, a.tweetCount + b.tweetCount, frequency)
            && IsRounded(c.rank.sentiment.positive, a.rank.sentiment.positive + b.rank.sentiment.positive, frequency)
            && IsRounded(c.rank.sentiment.neutral, a.rank.sentiment.neutral + b.rank.sentiment.neutral, frequency)
            && IsRounded(c.rank.sentiment.negative, a.rank.sentiment.neutral + b.rank.sentiment.negative, frequency)
    ensures var fa, fb, fc := a.rank.sentimentByFollowers, b.rank.sentimentByFollowers,
                              Averaged(a, b, frequency).rank.sentimentByFollowers;
            && IsRounded(fc.positive, fa.positive + fb.positive, frequency)
            && IsRounded(fc.neutral, fa.neutral + fb.neutral, frequency)
            && IsRounded(fc.negative, fa.negative + fb.negative, frequency)
            && IsRounded(fc.totalFollowers, fa.totalFollowers + fb.totalFollowers, frequency)
  {
    var sa, sb := a.rank.sentiment, b.rank.sentiment;
    var fa, fb := a.rank.sentimentByFollowers, b.rank.sentimentByFollowers;
    RoundDivRounds(a.tweetCount + b.tweetCount, frequency);
    RoundDivRounds(sa.positive + sb.positive, frequency);
    RoundDivRounds(sa.neutral + sb.neutral, frequency);
    RoundDivRounds(sa.neutral + sb.negative, frequency);
    RoundDivRounds(fa.positive + fb.positive, frequency);
    RoundDivRounds(fa.neutral + fb.neutral, frequency);
    RoundDivRounds(fa.negative + fb.negative, frequency);
    RoundDivRounds(fa.totalFollowers + fb.totalFollowers, frequency);
  }

  /** `getCombinedResultAveraged`: a lone present argument is returned unchanged. */
  function GetCombinedResultAveraged(resultA: Option<ResultMapped>, resultB: Option<ResultMapped>, frequency: nat)
    : (combined: Option<ResultMapped>)
    requires frequency >= 1
    ensures combined.Some? <==> resultA.Some? || resultB.Some?
    ensures resultA.None? ==> combined == resultB
    ensures resultB.None? ==> combined == resultA
    ensures resultA.Some? && resultB.Some? ==> combined == Some(Averaged(resultA.value, resultB.value, frequency))
  {
    match (resultA, resultB)
    case (None, _) => resultB
    case (Some(_), None) => resultA
    case (Some(a), Some(b)) => Some(Averaged(a, b, frequency))
  }

  /** With divisor one a merge is a plain running sum (the negative count still mixing in `a`'s neutral one). */
  lemma AveragedByOne(a: ResultMapped, b: ResultMapped)
    ensures var c := Averaged(a, b, 1);
            && c.tweetCount == a.tweetCount + b.tweetCount
            && c.rank.sentiment == Sentiment(
                 a.rank.sentiment.positive + b.rank.sentiment.positive,
                 a.rank.sentiment.neutral + b.rank.sentiment.neutral,
                 a.rank.sentiment.neutral + b.rank.sentiment.negative)
            && c.rank.sentimentByFollowers == SentimentByFollowers(
                 a.rank.sentimentByFollowers.positive + b.rank.sentimentByFollowers.positive,
                 a.rank.sentimentByFollowers.neutral + b.rank.sentimentByFollowers.neutral,
                 a.rank.sentimentByFollowers.negative + b.rank.sentimentByFollowers.negative,
                 a.rank.sentimentByFollowers.totalFollowers + b.rank.sentimentByFollowers.totalFollowers)
  {
    var sa, sb := a.rank.sentiment, b.rank.sentiment;
    var fa, fb := a.rank.sentimentByFollowers, b.rank.sentimentByFollowers;
    RoundDivByOne(a.tweetCount + b.tweetCount);
    RoundDivByOne(sa.positive + sb.positive);
    RoundDivByOne(sa.neutral + sb.neutral);
    RoundDivByOne(sa.neutral + sb.negative);
    RoundDivByOne(fa.positive + fb.positive);
    RoundDivByOne(fa.neutral + fb.neutral);
    RoundDivByOne(fa.negative + fb.negative);
    RoundDivByOne(fa.totalFollowers + fb.totalFollowers);
  }

  // ---------------------------------------------------------------------------
  // Downsampling: the block-wise specification

  /**
   * The pending merge once the members of `block` (oldest first) have been
   * folded in from the newest to the oldest with divisor one.
   */
  function Pending(block: seq<Result>): (acc: Option<ResultMapped>)
    ensures acc.Some? <==> block != []
    decreases |block|
  {
    if block == [] then None
    else GetCombinedResultAveraged(Pending(block[1..]), GetTweetResultMapped(Some(block[0])), 1)
  }

  /**
   * The output point of a full block: its oldest member is merged into the
   * pending sum of the newer ones with the block size as divisor.
   */
  function Group(block: seq<Result>): ResultMapped
    requires block != []
  {
    GetCombinedResultAveraged(Pending(block[1..]), GetTweetResultMapped(Some(block[0])), |block|).value
  }

  /** One output point per block, in the same order. */
  function GroupEach(blocks: seq<seq<Result>>): (points: seq<ResultMapped>)
    requires forall k :: 0 <= k < |blocks| ==> blocks[k] != []
    decreases |blocks|
  {
    if blocks == [] then [] else [Group(blocks[0])] + GroupEach(blocks[1..])
  }

  lemma {:induction false} GroupEachAt(blocks: seq<seq<Result>>, k: nat)
    requires forall j :: 0 <= j < |blocks| ==> blocks[j] != []
    ensures |GroupEach(blocks)| == |blocks|
    ensures k < |blocks| ==> GroupEach(blocks)[k] == Group(blocks[k])
    decreases |blocks|
  {
    if blocks != [] {
      GroupEachAt(blocks[1..], if k == 0 then 0 else k - 1);
    }
  }

  /**
   * The output of `getCombinedResults` for a factor `f >= 1`: one point per
   * full block of `f` inputs cut from the newest end, in chronological order.
   */
  function Downsampled(results: seq<Result>, f: nat): seq<ResultMapped>
    requires f >= 1
  {
    GroupEach(Blocks(results, f))
  }

  /** The output has exactly `|results| / f` points, and the oldest `|results| % f` inputs play no part. */
  lemma DownsampledLength(results: seq<Result>, f: nat)
    requires f >= 1
    ensures |Downsampled(results, f)| == |results| / f
    ensures Downsampled(results, f) == Downsampled(results[|results| % f..], f)
  {
    BlocksLength(results, f);
    GroupEachAt(Blocks(results, f), 0);
    BlocksDropOldest(results, f);
  }

  /**
   * Point `k` (chronological) is the group of the contiguous block
   * `results[r + k * f .. r + (k + 1) * f]`, where `r == |results| % f`.
   */
  lemma DownsampledBlock(results: seq<Result>, f: nat, k: nat)
    requires f >= 1 && k < |results| / f
    ensures var r := |results| % f;
            && r + (k + 1) * f <= |results|
            && k < |Downsampled(results, f)|
            && Downsampled(results, f)[k] == Group(results[r + k * f .. r + (k + 1) * f])
  {
    BlocksAt(results, f, k);
    GroupEachAt(Blocks(results, f), k);
  }

  /** A one-member group is that member's view. */
  lemma GroupOfOne(x: Result)
    ensures Group([x]) == MappedView(x)
  {
    assert [x][1..] == [];
  }

  /** With factor one every input becomes its own mapped view, in the same order. */
  lemma DownsampledByOne(results: seq<Result>)
    ensures Downsampled(results, 1) == seq(|results|, i requires 0 <= i < |results| => MappedView(results[i]))
  {
    var blocks := Blocks(results, 1);
    BlocksOfOne(results);
    GroupEachAt(blocks, 0);
    forall i | 0 <= i < |results|
      ensures Downsampled(results, 1)[i] == MappedView(results[i])
    {
      GroupEachAt(blocks, i);
      GroupOfOne(results[i]);
    }
  }

  // ---------------------------------------------------------------------------
  // What one output point holds

  /** The header fields of a pending merge are those of the block's newest member. */
  lemma {:induction false} PendingStamp(block: seq<Result>)
    requires block != []
    ensures Pending(block).value.StampOf() == block[|block| - 1].StampOf()
    decreases |block|
  {
    if |block| > 1 {
      PendingStamp(block[1..]);
    }
  }

  /**
   * A group's `timeMs`, `coin`, `usdRate`, `score` and `scoreByFollowers` are
   * those of its NEWEST member: the first one the backward scan meets.
   */
  lemma GroupStamp(block: seq<Result>)
    requires block != []
    ensures Group(block).StampOf() == block[|block| - 1].StampOf()
  {
    if |block| > 1 {
      PendingStamp(block[1..]);
    }
  }

  /** The members' id samples, newest member first. */
  function SamplesNewestFirst(block: seq<Result>): seq<TweetId>
    decreases |block|
  {
    if block == [] then []
    else MappedView(block[|block| - 1]).tweetIds + SamplesNewestFirst(block[..|block| - 1])
  }

  lemma {:induction false} SamplesNewestFirstFront(block: seq<Result>)
    requires block != []
    ensures SamplesNewestFirst(block) == SamplesNewestFirst(block[1..]) + MappedView(block[0]).tweetIds
    ensures |SamplesNewestFirst(block)| <= TWEET_ID_SAMPLE_SIZE * |block|
    decreases |block|
  {
    var n := |block|;
    if n > 1 {
      SamplesNewestFirstFront(block[..n - 1]);
      assert block[..n - 1][1..] == block[1..][..n - 2];
      assert block[1..][n - 2] == block[n - 1];
    }
  }

  lemma {:induction false} PendingIds(block: seq<Result>)
    requires block != []
    ensures Pending(block).value.tweetIds == SamplesNewestFirst(block)
    decreases |block|
  {
    SamplesNewestFirstFront(block);
    if |block| > 1 {
      PendingIds(block[1..]);
    } else {
      assert block[1..] == [];
    }
  }

  /**
   * A group's ids are its members' samples of at most TWEET_ID_SAMPLE_SIZE ids,
   * concatenated from the newest member to the oldest.
   */
  lemma GroupIds(block: seq<Result>)
    requires block != []
    ensures Group(block).tweetIds == SamplesNewestFirst(block)
    ensures |Group(block).tweetIds| <= TWEET_ID_SAMPLE_SIZE * |block|
  {
    SamplesNewestFirstFront(block);
    if |block| > 1 {
      PendingIds(block[1..]);
    } else {
      assert block[1..] == [];
    }
  }

  /** The eight counts a result carries, gathered so that they can be summed and rounded together. */
  datatype Counts = Counts(
    tweets: nat,
    positive: nat, neutral: nat, negative: nat,
    followersPositive: nat, followersNeutral: nat, followersNegative: nat, totalFollowers: nat)

  function CountsOf(m: ResultMapped): Counts
  {
    var s, f := m.rank.sentiment, m.rank.sentimentByFollowers;
    Counts(m.tweetCount, s.positive, s.neutral, s.negative, f.positive, f.neutral, f.negative, f.totalFollowers)
  }

  function Plus(x: Counts, y: Counts): Counts
  {
    Counts(x.tweets + y.tweets,
           x.positive + y.positive, x.neutral + y.neutral, x.negative + y.negative,
           x.followersPositive + y.followersPositive, x.followersNeutral + y.followersNeutral,
           x.followersNegative + y.followersNegative, x.totalFollowers + y.totalFollowers)
  }

  /** What one merge adds up before dividing: field-wise sums, except that the negative count is `x`'s neutral plus `y`'s negative. */
  function MergeCounts(x: Counts, y: Counts): Counts
  {
    Plus(x, y).(negative := x.neutral + y.negative)
  }

  /** Every count divided by `n` and rounded half up. */
  function RoundedCounts(c: Counts, n: nat): Counts
    requires n >= 1
  {
    Counts(RoundDiv(c.tweets, n),
           RoundDiv(c.positive, n), RoundDiv(c.neutral, n), RoundDiv(c.negative, n),
           RoundDiv(c.followersPositive, n), RoundDiv(c.followersNeutral, n),
           RoundDiv(c.followersNegative, n), RoundDiv(c.totalFollowers, n))
  }

  /** The counts of a merge, over plain values. */
  lemma AveragedCounts(a: ResultMapped, b: ResultMapped, n: nat)
    requires n >= 1
    ensures CountsOf(Averaged(a, b, n)) == RoundedCounts(MergeCounts(CountsOf(a), CountsOf(b)), n)
  {
  }

  /** The plain field-wise sums of the counts of a block's members' views. */
  function Sum(block: seq<Result>): Counts
    decreases |block|
  {
    if block == [] then Counts(0, 0, 0, 0, 0, 0, 0, 0)
    else Plus(Sum(block[1..]), CountsOf(MappedView(block[0])))
  }

  /**
   * What merging a whole block adds up: the plain sums, except that the
   * negative count is the neutral counts of all members but the oldest plus
   * the oldest member's negative count.
   */
  function MergedSum(block: seq<Result>): Counts
    requires block != []
  {
    Sum(block).(negative := Sum(block[1..]).neutral + CountsOf(MappedView(block[0])).negative)
  }

  lemma MergedSumStep(block: seq<Result>)
    requires |block| > 1
    ensures MergedSum(block) == MergeCounts(MergedSum(block[1..]), CountsOf(MappedView(block[0])))
  {
  }

  /** A pending merge holds `MergedSum` of its members. */
  lemma {:induction false} PendingCounts(block: seq<Result>)
    requires block != []
    ensures CountsOf(Pending(block).value) == MergedSum(block)
    decreases |block|
  {
    var view := MappedView(block[0]);
    if |block| > 1 {
      PendingCounts(block[1..]);
      AveragedCounts(Pending(block[1..]).value, view, 1);
      RoundedByOne(MergeCounts(CountsOf(Pending(block[1..]).value), CountsOf(view)));
      MergedSumStep(block);
    } else {
      assert block[1..] == [];
    }
  }

  lemma RoundedByOne(c: Counts)
    ensures RoundedCounts(c, 1) == c
  {
    RoundDivByOne(c.tweets);
    RoundDivByOne(c.positive);
    RoundDivByOne(c.neutral);
    RoundDivByOne(c.negative);
    RoundDivByOne(c.followersPositive);
    RoundDivByOne(c.followersNeutral);
    RoundDivByOne(c.followersNegative);
    RoundDivByOne(c.totalFollowers);
  }

  /**
   * The negative count of a merge is not conserved: merging a one-tweet
   * negative result with itself counts two tweets but only one label.
   */
  lemma NegativeQuirkLosesCounts(a: ResultMapped)
    requires a.tweetCount == 1 && a.rank.sentiment == Sentiment(0, 0, 1)
    ensures var c := CountsOf(Averaged(a, a, 1));
            c.tweets == 2 && c.positive + c.neutral + c.negative == 1
  {
    var m := MergeCounts(CountsOf(a), CountsOf(a));
    AveragedCounts(a, a, 1);
    RoundedByOne(m);
    assert CountsOf(Averaged(a, a, 1)) == m;
    assert m.tweets == 2 && m.positive == 0 && m.neutral == 0 && m.negative == 1;
  }

  /**
   * Each count of a group is `Math.round` of the members' total divided by
   * the block size, the negative count mixing in the newer members' neutral
   * counts in place of their negative ones.
   */
  lemma GroupCounts(block: seq<Result>)
    requires block != []
    ensures CountsOf(Group(block)) == RoundedCounts(MergedSum(block), |block|)
  {
    var view := MappedView(block[0]);
    if |block| == 1 {
      assert block[1..] == [];
      assert MergedSum(block) == CountsOf(view);
      RoundedByOne(CountsOf(view));
    } else {
      var p := Pending(block[1..]).value;
      PendingCounts(block[1..]);
      assert Group(block) == Averaged(p, view, |block|);
      AveragedCounts(p, view, |block|);
      MergedSumStep(block);
    }
  }

  /** `closed * f`, unfolded one block at a time so that the scan's bookkeeping stays linear. */
  function Times(closed: nat, f: nat): nat
  {
    if closed == 0 then 0 else Times(closed - 1, f) + f
  }

  lemma {:induction false} TimesIsProduct(closed: nat, f: nat)
    ensures Times(closed, f) == closed * f
  {
    if closed > 0 {
      TimesIsProduct(closed - 1, f);
    }
  }

  /** Folding the next older input into the pending merge. */
  lemma PendingExtend(results: seq<Result>, i: nat, start: nat)
    requires i < start <= |results|
    ensures Pending(results[i .. start])
            == GetCombinedResultAveraged(Pending(results[i + 1 .. start]), GetTweetResultMapped(Some(results[i])), 1)
  {
    var block := results[i .. start];
    assert block[0] == results[i] && block[1..] == results[i + 1 .. start];
  }

  /**
   * Closing the block `results[i .. start]` of `f` inputs, with `closed` full
   * blocks already done after it: the merge with divisor `f` is its group,
   * and prepending it extends the output.
   */
  lemma CloseBlock(results: seq<Result>, i: nat, start: nat, f: nat, closed: nat,
                   pending: Option<ResultMapped>, current: Option<ResultMapped>, condensed: seq<ResultMapped>)
    requires f >= 1 && start == i + f && start + Times(closed, f) == |results|
    requires pending == Pending(results[i + 1 .. start])
    requires current == GetTweetResultMapped(Some(results[i]))
    requires condensed == Downsampled(results[start..], f)
    ensures GetCombinedResultAveraged(pending, current, f) == Some(Group(results[i .. start]))
    ensures [Group(results[i .. start])] + condensed == Downsampled(results[i..], f)
  {
    var block := results[i .. start];
    assert block[0] == results[i] && block[1..] == results[i + 1 .. start];
    GroupCloses(block, pending, current);
    PrependBlock(results, i, start, f, closed);
  }

  lemma GroupCloses(block: seq<Result>, pending: Option<ResultMapped>, current: Option<ResultMapped>)
    requires block != []
    requires pending == Pending(block[1..]) && current == GetTweetResultMapped(Some(block[0]))
    ensures GetCombinedResultAveraged(pending, current, |block|) == Some(Group(block))
  {
  }

  lemma PrependBlock(results: seq<Result>, i: nat, start: nat, f: nat, closed: nat)
    requires f >= 1 && start == i + f && start + Times(closed, f) == |results|
    ensures Downsampled(results[i..], f) == [Group(results[i .. start])] + Downsampled(results[start..], f)
  {
    var block := results[i .. start];
    var rest := results[start..];
    assert results[i..] == block + rest;
    TimesIsProduct(closed, f);
    DivUnique(|rest|, f, closed, 0);
    BlocksPrepend(block, rest, f);
  }

  /** When the scan ends, the leftover `counter` oldest inputs are exactly the remainder. */
  lemma FinishScan(results: seq<Result>, f: nat, counter: nat, closed: nat)
    requires f >= 1 && counter < f && counter + Times(closed, f) == |results|
    ensures Downsampled(results[counter..], f) == Downsampled(results, f)
  {
    TimesIsProduct(closed, f);
    DivUnique(|results|, f, closed, counter);
    BlocksDropOldest(results, f);
  }

  /**
   * The state of the backward scan for a factor `f >= 1` when `i` is the next
   * index to visit: `counter` inputs after it are pending in the running
   * merge, and the `closed` full blocks after those are already condensed.
   */
  ghost predicate Scanned(results: seq<Result>, f: nat, i: int, counter: nat, closed: nat, start: nat,
                          pending: Option<ResultMapped>, condensed: seq<ResultMapped>)
  {
    && f >= 1 && -1 <= i && counter < f
    && start == i + 1 + counter && start + Times(closed, f) == |results|
    && pending == Pending(results[i + 1 .. start])
    && condensed == Downsampled(results[start..], f)
  }

  /** Visiting input `i` as the last member of a block closes it and prepends its group. */
  lemma ScanCloses(results: seq<Result>, f: nat, i: nat, closed: nat, start: nat,
                   pending: Option<ResultMapped>, current: Option<ResultMapped>, condensed: seq<ResultMapped>)
    requires f >= 1 && Scanned(results, f, i, f - 1, closed, start, pending, condensed)
    requires current == GetTweetResultMapped(Some(results[i]))
    ensures var merged := GetCombinedResultAveraged(pending, current, f);
            && merged.Some?
            && Scanned(results, f, i - 1, 0, closed + 1, i, None, [merged.value] + condensed)
  {
    CloseBlock(results, i, start, f, closed, pending, current, condensed);
    assert results[i .. i] == [];
  }

  /** Visiting input `i` inside a block folds it into the running merge. */
  lemma ScanExtends(results: seq<Result>, f: nat, i: nat, counter: nat, closed: nat, start: nat,
                    pending: Option<ResultMapped>, current: Option<ResultMapped>, condensed: seq<ResultMapped>)
    requires Scanned(results, f, i, counter, closed, start, pending, condensed) && counter + 1 < f
    requires current == GetTweetResultMapped(Some(results[i]))
    ensures Scanned(results, f, i - 1, counter + 1, closed, start, GetCombinedResultAveraged(pending, current, 1), condensed)
  {
    PendingExtend(results, i, start);
  }

  // ---------------------------------------------------------------------------
  // Downsampling: the loop of `getCombinedResults`

  /**
   * `getCombinedResults`: scans from the newest input to the oldest, sums
   * views with divisor one, and on the `dataFrequency`-th member of a block
   * merges with divisor `dataFrequency` and prepends the result. A factor
   * below one never closes a block.
   */
  method GetCombinedResults(results: seq<Result>, dataFrequency: int) returns (resultsCondensed: seq<ResultMapped>)
    ensures dataFrequency <= 0 ==> resultsCondensed == []
    ensures dataFrequency >= 1 ==> resultsCondensed == Downsampled(results, dataFrequency)
  {
    resultsCondensed := [];
    var tempCombinedResult: Option<ResultMapped> := None;
    var counter := 0;
    ghost var closed: nat := 0;  // full blocks already prepended
    ghost var start: nat := |results|;  // where the newest of them begins
    var i := |results| - 1;
    while i >= 0
      invariant -1 <= i < |results|
      invariant dataFrequency <= 0 ==> resultsCondensed == [] && counter == |results| - 1 - i
      invariant dataFrequency >= 1 ==>
                  Scanned(results, dataFrequency, i, counter, closed, start, tempCombinedResult, resultsCondensed)
    {
      var currentResult := GetTweetResultMapped(Some(results[i]));
      counter := counter + 1;
      if counter == dataFrequency {
        ScanCloses(results, dataFrequency, i, closed, start, tempCombinedResult, currentResult, resultsCondensed);
        tempCombinedResult := GetCombinedResultAveraged(tempCombinedResult, currentResult, dataFrequency);
        resultsCondensed := if tempCombinedResult.Some? then [tempCombinedResult.value] + resultsCondensed else resultsCondensed;
        tempCombinedResult := None;
        counter := 0;
        closed, start := closed + 1, i;
      } else {
        if dataFrequency >= 1 {
          ScanExtends(results, dataFrequency, i, counter - 1, closed, start, tempCombinedResult, currentResult, resultsCondensed);
        }
        tempCombinedResult := GetCombinedResultAveraged(tempCombinedResult, currentResult, 1);
      }
      i := i - 1;
    }
    if dataFrequency >= 1 {
      FinishScan(results, dataFrequency, counter, closed);
    }
  }
}
