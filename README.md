# Sentiment ranking and downsampling of crypto tweet results

A Dafny model of the computational core of `src/app/crypto/utils.ts`. It covers two things:

- **Ranking one batch of tweets.** `computeTwitterRank` counts the tweets under each sentiment label (positive, neutral, negative). It also sums the authors' follower counts per label, and picks a winning label under each weighting by reducing over `scoreOptions`.
- **Downsampling stored per-interval results for a query.** `getDatapointFrequency` picks a grouping factor from the queried time span. `getTweetResultMapped` builds the view of one stored result. `getCombinedResultAveraged` merges two views. `getCombinedResults` walks the stored results from newest to oldest and merges every `dataFrequency` consecutive ones into one output point.

Modules:

- `Wrappers`: `Option`.
- `CryptoTypes`: the record types `TweetStored`, `TwitterRank`, `Result` and `ResultMapped`, the three-valued `Label`, and `Stamp`. A `Stamp` is the header fields a record carries: `timeMs`, `coin`, `usdRate`, `score` and `scoreByFollowers`.
- `TwitterRanking`: `computeTwitterRank` and `scoreOptions`, as pure functions. The `reduce` over tweets is the fold `Tally`. The argmax `reduce` is `MaxRank`.
- `DatapointFrequency`: `getDatapointFrequency`.
- `Chunking`: how the backward scan splits a sequence into full blocks, over an arbitrary element type.
- `Combine`:
  - the view and the merge, as functions;
  - a block-wise specification `Downsampled` of the downsampling;
  - `getCombinedResults` as a method with the source's descending loop, proved equal to `Downsampled`.

Behaviour of the code that is easy to misread, modelled as written:

- **Tie-break.** In the argmax, the running best survives only if it is strictly greater (`max > v ? max : v`), so a tie goes to the LATER label in `[positive, neutral, negative]`. Counts `{2,2,1}` score `neutral`, and `{0,3,3}` score `negative`.
- **Group header.** A downsampled group takes its header fields from the group's NEWEST member. The backward scan meets that member first, and every merge keeps the first argument's fields.
- **No range error.** `getDatapointFrequency` has no error path. A negative time difference falls in the first band and gives 1.
- **Negative-count quirk, kept as written.** `getCombinedResultAveraged` computes the merged negative count as A's NEUTRAL count plus B's negative count (line 146). The model reproduces this. `NegativeQuirkLosesCounts` shows a merge whose label counts no longer add up to its tweet count.

`Math.round(s / d)` with `s >= 0` and `d >= 1` is modelled in integers as `RoundDiv(s, d) == (2s + d) / (2d)`. `RoundDivRounds` proves that this is the integer nearest to the real quotient, with a half rounding up.

## Model

| member | source | states |
|---|---|---|
| TwitterRanking.MaxRank | src/app/crypto/utils.ts:75-77 | the argmax `reduce` over a non-empty candidate list returns one of the candidates, and no candidate has a larger count |
| TwitterRanking.MaxRankIsLastMaximum | src/app/crypto/utils.ts:75 | because the best is replaced on ties, the winner stands at or after every candidate whose count equals the winner's |
| TwitterRanking.ScoreTieBreak | src/app/crypto/utils.ts:47-76 | over `[positive, neutral, negative]`: positive wins iff it beats both others strictly; neutral wins iff it is at least positive and beats negative strictly; negative wins iff it is at least both others |
| TwitterRanking.TieExamples | src/app/crypto/utils.ts:75-76 | ties give the later label: counts {2,2,1} give neutral, and counts {0,3,3} and {1,1,1} give negative |
| TwitterRanking.LabelAt | src/app/crypto/utils.ts:58-59 | a missing label, or an index past the end of `sentiments`, counts as neutral; otherwise the given label is used |
| TwitterRanking.Step | src/app/crypto/utils.ts:61-71 | one reduce step adds 1 to the tweet's label count, adds its followers to that label's follower sum and to `totalFollowers`, and leaves the other labels unchanged |
| TwitterRanking.ComputeTwitterRank | src/app/crypto/utils.ts:51-55 | an empty batch scores neutral under both weightings, with all counts and follower sums zero |
| TwitterRanking.TallyConserves | src/app/crypto/utils.ts:56-72 | each label count of the fold equals the number of tweets carrying that label; each label's follower sum equals the followers of exactly the tweets carrying that label; `totalFollowers` is the sum of all follower counts; the three follower sums add up to it |
| TwitterRanking.RankConservesCounts | src/app/crypto/utils.ts:51-83 | the three counts of a ranked batch add up to its size; its follower sums add up to `totalFollowers`, which is the batch's follower sum; each count is that label's multiplicity, and each follower sum is the followers of the tweets carrying that label |
| TwitterRanking.ScoreIsLastMaximum | src/app/crypto/utils.ts:74-83 | for a non-empty batch, `score` and `scoreByFollowers` each have a maximal count under their weighting, and each is characterised exactly (iff) by the later-wins tie rule |
| TwitterRanking.UnlabelledBatch | src/app/crypto/utils.ts:58-59 | a non-empty batch with no labels counts every tweet as neutral and scores neutral; the neutral follower sum is the total; with no followers at all, `scoreByFollowers` is negative |
| DatapointFrequency.GetDatapointFrequency | src/app/crypto/utils.ts:100-115 | the factor is one of 1, 2, 3, 10, 15, 30, and is each value exactly when the time difference lies in that value's band; bands have inclusive upper bounds at 1, 2, 4, 24 and 48 hours, and a negative difference gives 1 |
| DatapointFrequency.FrequencyMonotone | src/app/crypto/utils.ts:100-115 | a longer time difference never gives a smaller factor |
| DatapointFrequency.FrequencyBoundaries | src/app/crypto/utils.ts:101-109 | exactly one hour gives 1, one millisecond more gives 2, exactly 24 hours gives 10, and a negative difference gives 1 |
| Combine.MappedView | src/app/crypto/utils.ts:123-128 | `tweetCount` is the length of the ids (0 when absent); the ids become their first min(5, count) entries, in order; every other field is unchanged |
| Combine.GetTweetResultMapped | src/app/crypto/utils.ts:119-129 | an absent result maps to absent, and a present one to its view |
| Combine.RoundDivRounds | src/app/crypto/utils.ts:141 | `RoundDiv(s, d)` is `Math.round(s / d)`: within half of the real quotient, with a half rounding up |
| Combine.Averaged | src/app/crypto/utils.ts:139-142 | merging two present views keeps A's header fields, and the ids are A's followed by B's |
| Combine.AveragedRounds | src/app/crypto/utils.ts:141-153 | each merged count is `Math.round` of the sum of the two counts over the frequency; the negative count uses A's neutral count with B's negative count |
| Combine.GetCombinedResultAveraged | src/app/crypto/utils.ts:131-156 | the result is present iff either input is; a lone input is returned unchanged; two inputs give their merge |
| Combine.AveragedByOne | src/app/crypto/utils.ts:131-153 | with the default frequency 1, every merged count is the plain sum of the two counts, the negative one being A's neutral plus B's negative |
| Combine.NegativeQuirkLosesCounts | src/app/crypto/utils.ts:146 | merging a one-tweet negative view with itself counts 2 tweets but only 1 label: merges do not conserve label counts |
| Combine.Pending | src/app/crypto/utils.ts:171 | the running merge of a part of the scan is present iff that part is non-empty |
| Combine.DownsampledLength | src/app/crypto/utils.ts:162-175 | the output has exactly `n / f` points, and dropping the oldest `n % f` inputs does not change it |
| Combine.DownsampledBlock | src/app/crypto/utils.ts:162-172 | output point k is the group of the contiguous block `results[r + k*f .. r + (k+1)*f]`, where `r = n % f`, so the output is in chronological order |
| Combine.GroupOfOne | src/app/crypto/utils.ts:163-167 | a one-member group is that member's view |
| Combine.DownsampledByOne | src/app/crypto/utils.ts:158-176 | with factor 1 the output is the view of each input, in the same order |
| Combine.GroupStamp | src/app/crypto/utils.ts:163-171 | a group's timeMs, coin, usdRate, score and scoreByFollowers are those of its newest member |
| Combine.GroupIds | src/app/crypto/utils.ts:142 | a group's ids are its members' samples of up to 5 ids, concatenated newest member first, so there are at most 5·f of them |
| Combine.PendingCounts | src/app/crypto/utils.ts:171 | a running merge holds the plain sums of its members' counts, except that its negative count is the newer members' neutral counts plus the oldest member's negative count |
| Combine.GroupCounts | src/app/crypto/utils.ts:165-166 | each count of a closed group is the block total of that count divided by the block size with `Math.round`, with the same negative-count exception |
| Combine.GetCombinedResults | src/app/crypto/utils.ts:158-176 | the backward loop returns exactly `Downsampled(results, f)` for `f >= 1`, and nothing for `f <= 0`, since the counter never equals such a factor |
| Chunking.Blocks | src/app/crypto/utils.ts:162-169 | every block cut by the backward scan has exactly `f` members |
| Chunking.BlocksLength | src/app/crypto/utils.ts:162-169 | there are `n / f` blocks |
| Chunking.BlocksDropOldest | src/app/crypto/utils.ts:162-169 | the oldest `n % f` items belong to no block |
| Chunking.BlocksAt | src/app/crypto/utils.ts:162-169 | block k is the slice `xs[r + k*f .. r + (k+1)*f]`, where `r = n % f` |
| Chunking.BlocksPrepend | src/app/crypto/utils.ts:167 | closing a block in front of a whole number of blocks puts it first |

## Left out

- `getDataToStore` (lines 86-98) is not modelled. It reads the clock, calls the price service and the sentiment service, and sorts `tweets` in place before ranking them, which is I/O orchestration. `computeTwitterRank` takes its tweets and labels as parameters.
- The sentiment client (line 49) is a foreign service. Its output is an optional three-valued label per tweet. Labels outside the three known ones are not representable.
- The regular expressions `COIN_REGEX`, `URL_REGEX` and `URL_LATEST_REGEX` (lines 38-41) are not modelled. They rely on the JavaScript regex engine, and nothing in this file uses them.
- `FIVE_MIN_MS` and `ONE_WEEK_MS` (lines 43-44) are not modelled, because nothing in this file uses them.
- `usdRate` is carried as an opaque real number and only copied. No arithmetic on it is modelled.
- `src/app/crypto/streamer.ts` and `src/app/crypto/setup.ts` are not part of this model. They are streaming, timers, storage and service setup.
- All numbers are modelled as unbounded integers. JavaScript double-precision limits, non-integer timestamps and a non-integer `dataFrequency` are not modelled. A non-integer factor also never closes a block, so it behaves like the `f <= 0` case.
- `undefined` holes inside the `results` array passed to `getCombinedResults` are not modelled. Every entry is a present `Result`, but its `tweetIds` may be absent.
- `Math.round` is modelled only for the non-negative sums and positive divisors the code produces.
