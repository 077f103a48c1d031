/** `calculatePollingInterval` of backend/src/app.js: the next poll interval
    of a stop from its trailing 24-hour delay statistics and the local hour.
    The statistics query and the clock are inputs. */
module Polling {

  /** `MIN_POLL_INTERVAL` and `MAX_POLL_INTERVAL`, in milliseconds. */
  const MinPollInterval: int := 5 * 60 * 1000
  const MaxPollInterval: int := 30 * 60 * 1000

  /** `AVG(delay_minutes)`, `STDDEV(delay_minutes)` and `COUNT(*)`. */
  datatype Stats = Stats(avgDelay: real, stdDelay: real, sampleSize: nat)

  /** What one interval computation reads: the statistics and
      `new Date().getHours()`. */
  datatype IntervalInputs = IntervalInputs(stats: Stats, hour: int)

  /** `(hour >= 7 && hour <= 9) || (hour >= 16 && hour <= 18)`: the upper
      hours 9 and 18 are included. */
  predicate IsPeakHour(hour: int)
  {
    (7 <= hour <= 9) || (16 <= hour <= 18)
  }

  /** Very stable delays: `avg_delay < 5 && std_delay < 3`. */
  predicate IsStable(s: Stats)
  {
    s.avgDelay < 5.0 && s.stdDelay < 3.0
  }

  /** Moderately stable delays: `avg_delay < 10 && std_delay < 5`. */
  predicate IsModerate(s: Stats)
  {
    s.avgDelay < 10.0 && s.stdDelay < 5.0
  }

  /** The interval before the peak-hour adjustment. */
  function BaseInterval(s: Stats): int
  {
    if IsStable(s) then MaxPollInterval
    else if IsModerate(s) then (MinPollInterval + MaxPollInterval) / 2
    else MinPollInterval
  }

  function Max(a: int, b: int): int
  {
    if a >= b then a else b
  }

  /** The interval: the maximum with fewer than five samples; otherwise the
      base interval, halved in peak hours but never below the minimum. */
  function PollingInterval(s: Stats, hour: int): (r: int)
    ensures MinPollInterval <= r <= MaxPollInterval
    ensures s.sampleSize < 5 ==> r == MaxPollInterval
    ensures s.sampleSize >= 5 && !IsPeakHour(hour) ==> r == BaseInterval(s)
    ensures s.sampleSize >= 5 && IsPeakHour(hour) ==>
              r == if BaseInterval(s) / 2 >= MinPollInterval then BaseInterval(s) / 2 else MinPollInterval
    ensures r in {300000, 525000, 900000, 1050000, 1800000}
  {
    if s.sampleSize < 5 then MaxPollInterval
    else
      var interval := BaseInterval(s);
      if IsPeakHour(hour) then Max(interval / 2, MinPollInterval) else interval
  }

  /** Three scenarios for a stop with 20 samples averaging 3
      minutes of delay with deviation 1: 30 minutes at 14:00, 15 minutes at
      08:00, and 30 minutes whatever the statistics when only 2 samples exist. */
  lemma IntervalScenarios(avg: real, std: real, hour: int)
    ensures PollingInterval(Stats(3.0, 1.0, 20), 14) == 1800000
    ensures PollingInterval(Stats(3.0, 1.0, 20), 8) == 900000
    ensures PollingInterval(Stats(avg, std, 2), hour) == 1800000
  {
  }

  /** Peak hours are the closed ranges 7..9 and 16..18, so hours 9 and 18
      count as peak and hours 10 and 19 do not. */
  lemma InclusivePeakUpperHours(s: Stats)
    requires s.sampleSize >= 5 && IsStable(s)
    ensures PollingInterval(s, 9) == 900000 && PollingInterval(s, 18) == 900000
    ensures PollingInterval(s, 10) == 1800000 && PollingInterval(s, 19) == 1800000
  {
  }

  /** A peak hour never polls less often than an off-peak hour. */
  lemma PeakNeverSlower(s: Stats, peak: int, offPeak: int)
    requires IsPeakHour(peak) && !IsPeakHour(offPeak)
    ensures PollingInterval(s, peak) <= PollingInterval(s, offPeak)
  {
  }

  /** More stable statistics never shorten the interval. */
  lemma StablerNeverFaster(steady: Stats, shaky: Stats, hour: int)
    requires steady.sampleSize >= 5 && shaky.sampleSize >= 5
    requires steady.avgDelay <= shaky.avgDelay && steady.stdDelay <= shaky.stdDelay
    ensures PollingInterval(steady, hour) >= PollingInterval(shaky, hour)
  {
  }
}
