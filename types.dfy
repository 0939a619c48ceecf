/**
 * The records exchanged by the sentiment-ranking and downsampling code of
 * src/app/crypto/utils.ts. TypeScript intersection types (`Entry & TwitterRank`)
 * become one datatype with the rank carried as a nested record.
 */
module CryptoTypes {
  import opened Wrappers

  /** One of the three labels in `scoreOptions`. */
  datatype Label = Positive | Neutral | Negative

  type TweetId = string

  /** A tweet as the ranking sees it: its id and its author's follower count. */
  datatype TweetStored = TweetStored(id: TweetId, followersCount: nat)

  /** Number of tweets per label. */
  datatype Sentiment = Sentiment(positive: nat, neutral: nat, negative: nat)
  {
    /** `sentiment[label]` */
    function Of(l: Label): nat
    {
      match l
      case Positive => positive
      case Neutral => neutral
      case Negative => negative
    }
  }

  /** Follower-weighted counts per label, plus the total of all followers. */
  datatype SentimentByFollowers = SentimentByFollowers(positive: nat, neutral: nat, negative: nat, totalFollowers: nat)
  {
    /** `sentimentByFollowers[label]` */
    function Of(l: Label): nat
    {
      match l
      case Positive => positive
      case Neutral => neutral
      case Negative => negative
    }

    /** The three per-label sums, without the total. */
    function PerLabel(): (s: Sentiment)
      ensures forall l :: s.Of(l) == Of(l)
    {
      Sentiment(positive, neutral, negative)
    }
  }

  datatype TwitterRank = TwitterRank(
    score: Label,
    scoreByFollowers: Label,
    sentiment: Sentiment,
    sentimentByFollowers: SentimentByFollowers)

  /** The fields of a record that merging never changes: everything but the counts and the ids. */
  datatype Stamp = Stamp(timeMs: int, coin: string, usdRate: real, score: Label, scoreByFollowers: Label)

  /**
   * A stored interval result. `tweetIds` may be absent in what the store
   * returns (the code guards it with `|| []`); `usdRate` is only copied.
   */
  datatype Result = Result(timeMs: int, coin: string, tweetIds: Option<seq<TweetId>>, usdRate: real, rank: TwitterRank)
  {
    function StampOf(): Stamp
    {
      Stamp(timeMs, coin, usdRate, rank.score, rank.scoreByFollowers)
    }
  }

  /** The view of a result returned by queries: a sample of ids and the true id count. */
  datatype ResultMapped = ResultMapped(
    timeMs: int,
    coin: string,
    tweetIds: seq<TweetId>,
    usdRate: real,
    rank: TwitterRank,
    tweetCount: nat)
  {
    function StampOf(): Stamp
    {
      Stamp(timeMs, coin, usdRate, rank.score, rank.scoreByFollowers)
    }
  }
}
