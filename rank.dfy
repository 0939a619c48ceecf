/**
 * `computeTwitterRank` and `scoreOptions` (src/app/crypto/utils.ts:47-84):
 * per-label counts and follower sums of a batch, and the winning label under
 * each weighting.
 */
module TwitterRanking {
  import opened Wrappers
  import opened CryptoTypes

  /** The candidate order scanned when picking the winning label. */
  const ScoreOptions: seq<Label> := [Positive, Neutral, Negative]

  /**
   * `opts.reduce((max, v) => ranks[max] > ranks[v] ? max : v)`: a reduce
   * without an initial value, where the running best survives only when it is
   * strictly greater than the next candidate. The result is one of the
   * candidates and no candidate counts more.
   */
  function MaxRank(ranks: Sentiment, opts: seq<Label>): (best: Label)
    requires |opts| > 0
    ensures best in opts
    ensures forall o :: o in opts ==> ranks.Of(o) <= ranks.Of(best)
  {
    if |opts| == 1 then opts[0]
    else
      var max := MaxRank(ranks, opts[..|opts| - 1]);
      var v := opts[|opts| - 1];
      assert forall o :: o in opts ==> o in opts[..|opts| - 1] || o == v;
      if ranks.Of(max) > ranks.Of(v) then max else v
  }

  /**
   * Ties go to the later candidate: the winner stands at or after every
   * candidate that ties with it.
   */
  lemma {:induction false} MaxRankIsLastMaximum(ranks: Sentiment, opts: seq<Label>, j: nat)
    requires j < |opts|
    requires ranks.Of(opts[j]) == ranks.Of(MaxRank(ranks, opts))
    ensures MaxRank(ranks, opts) in opts[j..]
  {
    var n := |opts|;
    if n > 1 && j < n - 1 {
      var front := opts[..n - 1];
      var max := MaxRank(ranks, front);
      if ranks.Of(max) > ranks.Of(opts[n - 1]) {
        assert front[j] == opts[j];
        MaxRankIsLastMaximum(ranks, front, j);
        assert front[j..] <= opts[j..];
      } else {
        assert opts[n - 1] == opts[j..][n - 1 - j];
      }
    }
  }

  /** What `MaxRank` over `ScoreOptions` picks, stated label by label (both directions). */
  lemma ScoreTieBreak(ranks: Sentiment)
    ensures MaxRank(ranks, ScoreOptions) == Positive <==>
              ranks.positive > ranks.neutral && ranks.positive > ranks.negative
    ensures MaxRank(ranks, ScoreOptions) == Neutral <==>
              ranks.neutral >= ranks.positive && ranks.neutral > ranks.negative
    ensures MaxRank(ranks, ScoreOptions) == Negative <==>
              ranks.negative >= ranks.positive && ranks.negative >= ranks.neutral
  {
    var best := MaxRank(ranks, ScoreOptions);
    assert ScoreOptions[1..] == [Neutral, Negative] && ScoreOptions[2..] == [Negative];
    if ranks.Of(Neutral) == ranks.Of(best) {
      MaxRankIsLastMaximum(ranks, ScoreOptions, 1);
    }
    if ranks.Of(Negative) == ranks.Of(best) {
      MaxRankIsLastMaximum(ranks, ScoreOptions, 2);
    }
  }

  /** Ties resolve to the later candidate: {2,2,1} gives neutral, {0,3,3} gives negative. */
  lemma TieExamples()
    ensures MaxRank(Sentiment(2, 2, 1), ScoreOptions) == Neutral
    ensures MaxRank(Sentiment(0, 3, 3), ScoreOptions) == Negative
    ensures MaxRank(Sentiment(1, 1, 1), ScoreOptions) == Negative
  {
    ScoreTieBreak(Sentiment(2, 2, 1));
    ScoreTieBreak(Sentiment(0, 3, 3));
    ScoreTieBreak(Sentiment(1, 1, 1));
  }

  /** `tweetSentiment?.value || 'neutral'`: a missing label, or one past the end of `sentiments`, is neutral. */
  function LabelAt(sentiments: seq<Option<Label>>, idx: nat): (l: Label)
    ensures idx >= |sentiments| || sentiments[idx].None? ==> l == Neutral
    ensures idx < |sentiments| && sentiments[idx].Some? ==> l == sentiments[idx].value
  {
    if idx < |sentiments| && sentiments[idx].Some? then sentiments[idx].value else Neutral
  }

  /** The accumulator of the `reduce` in computeTwitterRank. */
  datatype Ranks = Ranks(sentiment: Sentiment, sentimentByFollowers: SentimentByFollowers)

  const DefaultRanks: Ranks := Ranks(Sentiment(0, 0, 0), SentimentByFollowers(0, 0, 0, 0))

  /** One step of the reduce: the tweet's label gains one count and its follower count. */
  function Step(acc: Ranks, followers: nat, value: Label): (next: Ranks)
    ensures forall l :: next.sentiment.Of(l) == acc.sentiment.Of(l) + (if l == value then 1 else 0)
    ensures forall l :: next.sentimentByFollowers.Of(l) == acc.sentimentByFollowers.Of(l) + (if l == value then followers else 0)
    ensures next.sentimentByFollowers.totalFollowers == acc.sentimentByFollowers.totalFollowers + followers
  {
    var s := acc.sentiment;
    var f := acc.sentimentByFollowers;
    match value
    case Positive =>
      Ranks(s.(positive := s.positive + 1),
            f.(positive := f.positive + followers, totalFollowers := f.totalFollowers + followers))
    case Neutral =>
      Ranks(s.(neutral := s.neutral + 1),
            f.(neutral := f.neutral + followers, totalFollowers := f.totalFollowers + followers))
    case Negative =>
      Ranks(s.(negative := s.negative + 1),
            f.(negative := f.negative + followers, totalFollowers := f.totalFollowers + followers))
  }

  /** `tweets.reduce(step, defaultValue)`: a left fold, tweet `idx` paired with `sentiments[idx]`. */
  function Tally(tweets: seq<TweetStored>, sentiments: seq<Option<Label>>): Ranks
    decreases |tweets|
  {
    if tweets == [] then DefaultRanks
    else
      var k := |tweets| - 1;
      Step(Tally(tweets[..k], sentiments), tweets[k].followersCount, LabelAt(sentiments, k))
  }

  function ComputeTwitterRank(tweets: seq<TweetStored>, sentiments: seq<Option<Label>>): (rank: TwitterRank)
    ensures tweets == [] ==>
              rank == TwitterRank(Neutral, Neutral, Sentiment(0, 0, 0), SentimentByFollowers(0, 0, 0, 0))
  {
    if tweets == [] then
      TwitterRank(Neutral, Neutral, DefaultRanks.sentiment, DefaultRanks.sentimentByFollowers)
    else
      var ranks := Tally(tweets, sentiments);
      TwitterRank(
        MaxRank(ranks.sentiment, ScoreOptions),
        MaxRank(ranks.sentimentByFollowers.PerLabel(), ScoreOptions),
        ranks.sentiment,
        ranks.sentimentByFollowers)
  }

  /** The label each tweet is counted under. */
  function EffectiveLabels(tweets: seq<TweetStored>, sentiments: seq<Option<Label>>): (labels: seq<Label>)
    ensures |labels| == |tweets|
  {
    seq(|tweets|, i requires 0 <= i < |tweets| => LabelAt(sentiments, i))
  }

  /** Sum of the follower counts of a batch, from the front. */
  function SumFollowers(tweets: seq<TweetStored>): nat
  {
    if tweets == [] then 0 else tweets[0].followersCount + SumFollowers(tweets[1..])
  }

  /** The followers of the tweets counted under label `l`, folded in tweet order. */
  function LabelFollowers(tweets: seq<TweetStored>, sentiments: seq<Option<Label>>, l: Label): nat
    decreases |tweets|
  {
    if tweets == [] then 0
    else
      var k := |tweets| - 1;
      LabelFollowers(tweets[..k], sentiments, l) + (if LabelAt(sentiments, k) == l then tweets[k].followersCount else 0)
  }

  lemma {:induction false} SumFollowersSnoc(tweets: seq<TweetStored>, t: TweetStored)
    ensures SumFollowers(tweets + [t]) == SumFollowers(tweets) + t.followersCount
  {
    if tweets != [] {
      assert (tweets + [t])[1..] == tweets[1..] + [t];
      SumFollowersSnoc(tweets[1..], t);
    }
  }

  /**
   * Each per-label count is the number of tweets carrying that label (a missing
   * label counting as neutral), each per-label follower sum is the followers
   * of exactly those tweets, the follower total is the sum of all follower
   * counts, and the three follower sums add up to it.
   */
  lemma {:induction false} TallyConserves(tweets: seq<TweetStored>, sentiments: seq<Option<Label>>)
    ensures forall l :: Tally(tweets, sentiments).sentiment.Of(l) == multiset(EffectiveLabels(tweets, sentiments))[l]
    ensures forall l :: Tally(tweets, sentiments).sentimentByFollowers.Of(l) == LabelFollowers(tweets, sentiments, l)
    ensures Tally(tweets, sentiments).sentimentByFollowers.totalFollowers == SumFollowers(tweets)
    ensures var f := Tally(tweets, sentiments).sentimentByFollowers;
            f.positive + f.neutral + f.negative == f.totalFollowers
  {
    if tweets != [] {
      var k := |tweets| - 1;
      TallyConserves(tweets[..k], sentiments);
      assert EffectiveLabels(tweets, sentiments) == EffectiveLabels(tweets[..k], sentiments) + [LabelAt(sentiments, k)];
      assert tweets == tweets[..k] + [tweets[k]];
      SumFollowersSnoc(tweets[..k], tweets[k]);
    }
  }

  /** The counts of a batch add up to its size; the follower sums to its follower total. */
  lemma RankConservesCounts(tweets: seq<TweetStored>, sentiments: seq<Option<Label>>)
    ensures var r := ComputeTwitterRank(tweets, sentiments);
            && r.sentiment.positive + r.sentiment.neutral + r.sentiment.negative == |tweets|
            && r.sentimentByFollowers.positive + r.sentimentByFollowers.neutral + r.sentimentByFollowers.negative
               == r.sentimentByFollowers.totalFollowers
            && r.sentimentByFollowers.totalFollowers == SumFollowers(tweets)
            && (forall l :: r.sentiment.Of(l) == multiset(EffectiveLabels(tweets, sentiments))[l])
            && (forall l :: r.sentimentByFollowers.Of(l) == LabelFollowers(tweets, sentiments, l))
  {
    TallyConserves(tweets, sentiments);
    var labels := EffectiveLabels(tweets, sentiments);
    MultisetOfLabels(labels);
  }

  /** A multiset of labels is split exactly among the three labels. */
  lemma {:induction false} MultisetOfLabels(labels: seq<Label>)
    ensures multiset(labels)[Positive] + multiset(labels)[Neutral] + multiset(labels)[Negative] == |labels|
  {
    if labels != [] {
      MultisetOfLabels(labels[1..]);
      assert labels == [labels[0]] + labels[1..];
      assert multiset(labels) == multiset([labels[0]]) + multiset(labels[1..]);
      match labels[0]
      case Positive => assert multiset([labels[0]])[Positive] == 1;
      case Neutral => assert multiset([labels[0]])[Neutral] == 1;
      case Negative => assert multiset([labels[0]])[Negative] == 1;
    }
  }

  /**
   * The score of a non-empty batch is a label with the largest count, the last
   * such one in `ScoreOptions` order; likewise `scoreByFollowers` over the follower sums.
   */
  lemma ScoreIsLastMaximum(tweets: seq<TweetStored>, sentiments: seq<Option<Label>>)
    requires tweets != []
    ensures var r := ComputeTwitterRank(tweets, sentiments);
            && (forall l :: r.sentiment.Of(l) <= r.sentiment.Of(r.score))
            && (forall l :: r.sentimentByFollowers.Of(l) <= r.sentimentByFollowers.Of(r.scoreByFollowers))
            && (r.score == Positive <==> r.sentiment.positive > r.sentiment.neutral && r.sentiment.positive > r.sentiment.negative)
            && (r.score == Neutral <==> r.sentiment.neutral >= r.sentiment.positive && r.sentiment.neutral > r.sentiment.negative)
            && (r.score == Negative <==> r.sentiment.negative >= r.sentiment.positive && r.sentiment.negative >= r.sentiment.neutral)
            && (r.scoreByFollowers == Positive <==>
                 r.sentimentByFollowers.positive > r.sentimentByFollowers.neutral
                 && r.sentimentByFollowers.positive > r.sentimentByFollowers.negative)
            && (r.scoreByFollowers == Neutral <==>
                 r.sentimentByFollowers.neutral >= r.sentimentByFollowers.positive
                 && r.sentimentByFollowers.neutral > r.sentimentByFollowers.negative)
            && (r.scoreByFollowers == Negative <==>
                 r.sentimentByFollowers.negative >= r.sentimentByFollowers.positive
                 && r.sentimentByFollowers.negative >= r.sentimentByFollowers.neutral)
  {
    var ranks := Tally(tweets, sentiments);
    var s := ranks.sentiment;
    var f := ranks.sentimentByFollowers.PerLabel();
    var r := ComputeTwitterRank(tweets, sentiments);
    assert r.score == MaxRank(s, ScoreOptions) && r.sentiment == s;
    assert r.scoreByFollowers == MaxRank(f, ScoreOptions);
    ScoreTieBreak(s);
    ScoreTieBreak(f);
    forall l: Label ensures l in ScoreOptions {
      assert l == ScoreOptions[0] || l == ScoreOptions[1] || l == ScoreOptions[2];
    }
  }

  /**
   * A batch with no usable label at all is counted as all neutral and scores
   * neutral; when its authors also have no followers, every follower sum is 0
   * and the tie makes `scoreByFollowers` negative.
   */
  lemma UnlabelledBatch(tweets: seq<TweetStored>, sentiments: seq<Option<Label>>)
    requires tweets != []
    requires forall i :: 0 <= i < |sentiments| ==> sentiments[i].None?
    ensures var r := ComputeTwitterRank(tweets, sentiments);
            && r.sentiment == Sentiment(0, |tweets|, 0)
            && r.score == Neutral
            && r.sentimentByFollowers.neutral == r.sentimentByFollowers.totalFollowers
            && (r.sentimentByFollowers.totalFollowers == 0 ==> r.scoreByFollowers == Negative)
  {
    var labels := EffectiveLabels(tweets, sentiments);
    assert labels == seq(|tweets|, _ => Neutral);
    AllNeutral(|tweets|);
    RankConservesCounts(tweets, sentiments);
    UnlabelledFollowers(tweets, sentiments);
    ScoreIsLastMaximum(tweets, sentiments);
  }

  lemma {:induction false} AllNeutral(n: nat)
    ensures multiset(seq(n, _ => Neutral))[Neutral] == n
    ensures multiset(seq(n, _ => Neutral))[Positive] == 0
    ensures multiset(seq(n, _ => Neutral))[Negative] == 0
  {
    if n > 0 {
      AllNeutral(n - 1);
      assert seq(n, _ => Neutral) == seq(n - 1, _ => Neutral) + [Neutral];
    }
  }

  lemma {:induction false} UnlabelledFollowers(tweets: seq<TweetStored>, sentiments: seq<Option<Label>>)
    requires forall i :: 0 <= i < |sentiments| ==> sentiments[i].None?
    ensures Tally(tweets, sentiments).sentimentByFollowers.positive == 0
    ensures Tally(tweets, sentiments).sentimentByFollowers.negative == 0
  {
    if tweets != [] {
      UnlabelledFollowers(tweets[..|tweets| - 1], sentiments);
    }
  }
}
