/** The quota governor of backend/src/app.js: a process-wide request counter
    and two API keys. Every tracked request bumps the counter; when it
    reaches the hourly limit the keys swap and the counter starts again. */
module Quota {

  /** `MAX_REQUESTS_PER_HOUR`. */
  const MaxRequestsPerHour: int := 800

  /** The three module-level variables `currentApiKey`, `backupApiKey` and
      `requestsThisHour`, as one value. */
  datatype QuotaState = QuotaState(currentKey: string, backupKey: string, requestsThisHour: int)

  /** The counter never reaches the limit between calls. */
  predicate InRange(s: QuotaState)
  {
    0 <= s.requestsThisHour < MaxRequestsPerHour
  }

  /** `rotateApiKeys`: swap the keys and reset the counter. */
  function Rotated(s: QuotaState): QuotaState
  {
    QuotaState(s.backupKey, s.currentKey, 0)
  }

  /** `trackApiRequest`: count one request, rotating on reaching the limit. */
  function Tracked(s: QuotaState): (r: QuotaState)
    ensures InRange(s) ==> InRange(r)
    ensures r.requestsThisHour == 0 || r.requestsThisHour == s.requestsThisHour + 1
    ensures r.requestsThisHour == s.requestsThisHour + 1 ==> r.currentKey == s.currentKey && r.backupKey == s.backupKey
  {
    var bumped := s.(requestsThisHour := s.requestsThisHour + 1);
    if bumped.requestsThisHour >= MaxRequestsPerHour then Rotated(bumped) else bumped
  }

  /** The state after `n` tracked requests. */
  function TrackMany(s: QuotaState, n: nat): QuotaState
  {
    if n == 0 then s else Tracked(TrackMany(s, n - 1))
  }

  /** Counting `a` requests and then `b` more is counting `a + b`. */
  lemma {:induction false} TrackManyAdd(s: QuotaState, a: nat, b: nat)
    ensures TrackMany(TrackMany(s, a), b) == TrackMany(s, a + b)
    decreases b
  {
    if b > 0 {
      TrackManyAdd(s, a, b - 1);
    }
  }

  /** The state a counter value `c` (counted from the keys of `s` with the
      counter at zero) stands for: `c % 800` requests on the key that is
      active after `c / 800` rotations. */
  function AfterCount(s: QuotaState, c: nat): QuotaState
  {
    var count := c % MaxRequestsPerHour;
    if (c / MaxRequestsPerHour) % 2 == 0 then QuotaState(s.currentKey, s.backupKey, count)
    else QuotaState(s.backupKey, s.currentKey, count)
  }

  /** Rotating twice restores the original keys. */
  lemma RotateTwiceRestoresKeys(s: QuotaState)
    ensures Rotated(Rotated(s)) == s.(requestsThisHour := 0)
  {
  }

  lemma DivModStep(m: nat)
    ensures m % MaxRequestsPerHour + 1 < MaxRequestsPerHour ==>
              (m + 1) % MaxRequestsPerHour == m % MaxRequestsPerHour + 1 && (m + 1) / MaxRequestsPerHour == m / MaxRequestsPerHour
    ensures m % MaxRequestsPerHour + 1 >= MaxRequestsPerHour ==>
              (m + 1) % MaxRequestsPerHour == 0 && (m + 1) / MaxRequestsPerHour == m / MaxRequestsPerHour + 1
  {
    var q, r := m / MaxRequestsPerHour, m % MaxRequestsPerHour;
    assert m == q * MaxRequestsPerHour + r;
    if r + 1 < MaxRequestsPerHour {
      assert m + 1 == q * MaxRequestsPerHour + (r + 1);
    } else {
      assert m + 1 == (q + 1) * MaxRequestsPerHour;
    }
  }

  /** Closed form of the governor: starting from a counter in range, `n`
      tracked requests leave the counter at `(c + n) % 800` and the keys
      swapped exactly when an odd number of rotations happened. */
  lemma {:induction false} TrackManyClosedForm(s: QuotaState, n: nat)
    requires InRange(s)
    ensures TrackMany(s, n) == AfterCount(s.(requestsThisHour := 0), s.requestsThisHour + n)
  {
    var base := s.(requestsThisHour := 0);
    if n == 0 {
      assert s.requestsThisHour / MaxRequestsPerHour == 0;
    } else {
      TrackManyClosedForm(s, n - 1);
      var m: nat := s.requestsThisHour + n - 1;
      DivModStep(m);
    }
  }

  /** Starting from a fresh counter, the keys stay put for 799 requests
      and swap, with the counter back at zero, on exactly the 800th. */
  lemma RotationAfterExactly800(s: QuotaState, k: nat)
    requires s.requestsThisHour == 0
    ensures 0 < k < MaxRequestsPerHour ==>
              TrackMany(s, k) == s.(requestsThisHour := k)
    ensures TrackMany(s, MaxRequestsPerHour) == Rotated(s)
  {
    TrackManyClosedForm(s, k);
    TrackManyClosedForm(s, MaxRequestsPerHour);
  }

  /** Two full rotations (1600 requests from a fresh counter) restore the
      original keys. */
  lemma TwoRotationsRestoreKeys(s: QuotaState)
    requires s.requestsThisHour == 0
    ensures TrackMany(s, 2 * MaxRequestsPerHour) == s
  {
    TrackManyClosedForm(s, 2 * MaxRequestsPerHour);
  }

  /** The module-level key and counter variables of app.js, mutated in place. */
  class QuotaGovernor {
    var currentApiKey: string
    var backupApiKey: string
    var requestsThisHour: int

    ghost predicate Valid()
      reads this
    {
      InRange(State())
    }

    function State(): QuotaState
      reads this
    {
      QuotaState(currentApiKey, backupApiKey, requestsThisHour)
    }

    /** Keys from `PRIMARY_API_KEY` and `SECONDARY_API_KEY`; counter at zero. */
    constructor (primaryKey: string, secondaryKey: string)
      ensures Valid()
      ensures State() == QuotaState(primaryKey, secondaryKey, 0)
    {
      currentApiKey := primaryKey;
      backupApiKey := secondaryKey;
      requestsThisHour := 0;
    }

    method RotateApiKeys()
      modifies this
      ensures State() == Rotated(old(State()))
      ensures Valid()
    {
      currentApiKey, backupApiKey := backupApiKey, currentApiKey;
      requestsThisHour := 0;
    }

    method TrackApiRequest()
      requires Valid()
      modifies this
      ensures Valid()
      ensures State() == Tracked(old(State()))
    {
      requestsThisHour := requestsThisHour + 1;
      if requestsThisHour >= MaxRequestsPerHour {
        RotateApiKeys();
      }
    }
  }
}
