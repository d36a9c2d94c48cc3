/**
 * The update gate `shouldCheckForUpdate`.
 *
 * On the ESP32 `unsigned long` and `uint32_t` are 32 bits wide, and
 * `millis()` wraps to 0 after 2^32 ms (about 49.7 days). Every difference
 * the gate takes is therefore a 32-bit unsigned subtraction, modelled here
 * explicitly as subtraction modulo 2^32.
 */
module UpdateGate {

  const TWO_TO_THE_32: int := 0x1_0000_0000

  newtype uint32 = x: int | 0 <= x < 0x1_0000_0000

  /** `init`'s `5 * 60 * 1000`: at most one check per five minutes. */
  const CHECK_INTERVAL: uint32 := 300000

  /** `init`'s `10 * 60 * 1000`: no check within ten minutes of a vote. */
  const NO_VOTE_TIME_THRESHOLD: uint32 := 600000

  /** `a - b` on `unsigned long`: the result wraps modulo 2^32. */
  function WrapSub(a: uint32, b: uint32): (d: uint32)
    ensures (b as int + d as int) % TWO_TO_THE_32 == a as int
    ensures a >= b ==> d == a - b
  {
    ((a as int - b as int) % TWO_TO_THE_32) as uint32
  }

  /** `a + b` on `unsigned long`: the result wraps modulo 2^32. */
  function WrapAdd(a: uint32, b: uint32): (s: uint32)
    ensures a as int + b as int < TWO_TO_THE_32 ==> s as int == a as int + b as int
    ensures a as int + b as int >= TWO_TO_THE_32 ==> s as int == a as int + b as int - TWO_TO_THE_32
  {
    ((a as int + b as int) % TWO_TO_THE_32) as uint32
  }

  /** The value `millis()` shows at `t` milliseconds after boot. */
  function Millis(t: nat): uint32 {
    (t % TWO_TO_THE_32) as uint32
  }

  /**
   * The condition of `shouldCheckForUpdate`: not too soon after the last
   * check, and no vote within the threshold (a vote time of 0 means none).
   */
  predicate ShouldCheck(now: uint32, lastCheckTime: uint32, checkInterval: uint32,
                        lastAnyVoteTime: uint32, noVoteTimeThreshold: uint32)
  {
    !(WrapSub(now, lastCheckTime) < checkInterval) &&
    !(lastAnyVoteTime > 0 && WrapSub(now, lastAnyVoteTime) < noVoteTimeThreshold)
  }

  /** Wrapping subtraction undoes wrapping addition: the elapsed time survives the wrap. */
  lemma WrapSubAdd(t: uint32, d: uint32)
    ensures WrapSub(WrapAdd(t, d), t) == d
  {
  }

  /**
   * Against real time: as long as less than 2^32 ms passed, the wrapped
   * difference of two `millis()` readings is the true elapsed time.
   */
  lemma ElapsedIsTrue(t0: nat, t1: nat)
    requires t0 <= t1 < t0 + TWO_TO_THE_32
    ensures WrapSub(Millis(t1), Millis(t0)) as int == t1 - t0
  {
    var d := WrapSub(Millis(t1), Millis(t0));
    var q0, q1 := t0 / TWO_TO_THE_32, t1 / TWO_TO_THE_32;
    assert t0 == q0 * TWO_TO_THE_32 + Millis(t0) as int;
    assert t1 == q1 * TWO_TO_THE_32 + Millis(t1) as int;
    assert q1 == q0 || q1 == q0 + 1;
    if q1 == q0 {
      assert Millis(t1) >= Millis(t0);
    } else {
      assert Millis(t1) < Millis(t0);
      assert (Millis(t0) as int + (t1 - t0)) % TWO_TO_THE_32 == Millis(t1) as int;
    }
  }

  /** The gate is closed whenever the last check is too recent. */
  lemma TooSoonCloses(now: uint32, last: uint32, interval: uint32, vote: uint32, threshold: uint32)
    requires WrapSub(now, last) < interval
    ensures !ShouldCheck(now, last, interval, vote, threshold)
  {
  }

  /** The gate is closed whenever a vote happened within the threshold. */
  lemma RecentVoteCloses(now: uint32, last: uint32, interval: uint32, vote: uint32, threshold: uint32)
    requires vote > 0 && WrapSub(now, vote) < threshold
    ensures !ShouldCheck(now, last, interval, vote, threshold)
  {
  }

  /**
   * With no vote recorded (vote time 0) the gate opens exactly when at least
   * the interval elapsed; an elapsed time equal to the interval passes.
   */
  lemma NoVoteOpensOnInterval(last: uint32, elapsed: uint32, interval: uint32, threshold: uint32)
    ensures ShouldCheck(WrapAdd(last, elapsed), last, interval, 0, threshold) <==> elapsed >= interval
  {
    WrapSubAdd(last, elapsed);
  }

  /** Both conditions met, the gate is open, whatever the vote threshold. */
  lemma QuietAndDueOpens(last: uint32, elapsed: uint32, vote: uint32, sinceVote: uint32,
                         interval: uint32, threshold: uint32)
    requires elapsed >= interval
    requires WrapAdd(last, elapsed) == WrapAdd(vote, sinceVote)
    requires vote == 0 || sinceVote >= threshold
    ensures ShouldCheck(WrapAdd(last, elapsed), last, interval, vote, threshold)
  {
    WrapSubAdd(last, elapsed);
    WrapSubAdd(vote, sinceVote);
  }

  /** After `init` sets `lastCheckTime = 0`, no check is due before `millis()` reaches 300000. */
  lemma NothingDueRightAfterInit(now: uint32, vote: uint32)
    requires now < 300000
    ensures !ShouldCheck(now, 0, CHECK_INTERVAL, vote, NO_VOTE_TIME_THRESHOLD)
  {
  }

  /** One millisecond short of five minutes is too soon; one after is due (with no votes). */
  lemma FiveMinuteBoundary(t: uint32)
    ensures !ShouldCheck(WrapAdd(t, 299999), t, CHECK_INTERVAL, 0, NO_VOTE_TIME_THRESHOLD)
    ensures ShouldCheck(WrapAdd(t, 300000), t, CHECK_INTERVAL, 0, NO_VOTE_TIME_THRESHOLD)
    ensures ShouldCheck(WrapAdd(t, 300001), t, CHECK_INTERVAL, 0, NO_VOTE_TIME_THRESHOLD)
  {
    NoVoteOpensOnInterval(t, 299999, CHECK_INTERVAL, NO_VOTE_TIME_THRESHOLD);
    NoVoteOpensOnInterval(t, 300000, CHECK_INTERVAL, NO_VOTE_TIME_THRESHOLD);
    NoVoteOpensOnInterval(t, 300001, CHECK_INTERVAL, NO_VOTE_TIME_THRESHOLD);
  }

  /** Twenty minutes after the last check, a vote nine minutes ago suppresses; eleven minutes ago does not. */
  lemma VoteWindow(t: uint32, vote: uint32)
    requires vote > 0
    ensures WrapAdd(vote, 540000) == WrapAdd(t, 1200000) ==>
              !ShouldCheck(WrapAdd(t, 1200000), t, CHECK_INTERVAL, vote, NO_VOTE_TIME_THRESHOLD)
    ensures WrapAdd(vote, 660000) == WrapAdd(t, 1200000) ==>
              ShouldCheck(WrapAdd(t, 1200000), t, CHECK_INTERVAL, vote, NO_VOTE_TIME_THRESHOLD)
  {
    WrapSubAdd(t, 1200000);
    WrapSubAdd(vote, 540000);
    WrapSubAdd(vote, 660000);
  }
}
