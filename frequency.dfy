/**
 * `getDatapointFrequency` (src/app/crypto/utils.ts:100-115): how many stored
 * intervals a query over a time range merges into one output point.
 */
module DatapointFrequency {

  const ONE_HOUR_MS: int := 1000 * 60 * 60

  /**
   * A step function of `endTimestamp - startTimestamp` with inclusive upper
   * bounds at 1, 2, 4, 24 and 48 hours. It is total: a negative difference
   * falls in the first band and no error is raised.
   */
  function GetDatapointFrequency(startTimestamp: int, endTimestamp: int): (factor: nat)
    ensures factor in {1, 2, 3, 10, 15, 30}
    ensures var diff := endTimestamp - startTimestamp;
            && (factor == 1 <==> diff <= ONE_HOUR_MS)
            && (factor == 2 <==> ONE_HOUR_MS < diff <= 2 * ONE_HOUR_MS)
            && (factor == 3 <==> 2 * ONE_HOUR_MS < diff <= 4 * ONE_HOUR_MS)
            && (factor == 10 <==> 4 * ONE_HOUR_MS < diff <= 24 * ONE_HOUR_MS)
            && (factor == 15 <==> 24 * ONE_HOUR_MS < diff <= 48 * ONE_HOUR_MS)
            && (factor == 30 <==> 48 * ONE_HOUR_MS < diff)
  {
    var diff := endTimestamp - startTimestamp;
    if diff <= ONE_HOUR_MS then 1
    else if diff <= ONE_HOUR_MS * 2 then 2
    else if diff <= ONE_HOUR_MS * 4 then 3
    else if diff <= ONE_HOUR_MS * 24 then 10
    else if diff <= ONE_HOUR_MS * 24 * 2 then 15
    else 30
  }

  /** A longer range never gets a finer grouping. */
  lemma FrequencyMonotone(start1: int, end1: int, start2: int, end2: int)
    requires end1 - start1 <= end2 - start2
    ensures GetDatapointFrequency(start1, end1) <= GetDatapointFrequency(start2, end2)
  {
  }

  /** The boundaries are inclusive. */
  lemma FrequencyBoundaries()
    ensures GetDatapointFrequency(0, 3600000) == 1
    ensures GetDatapointFrequency(0, 3600001) == 2
    ensures GetDatapointFrequency(0, 86400000) == 10
    ensures GetDatapointFrequency(5, 0) == 1
  {
  }
}
