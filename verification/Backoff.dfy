/** retry.utils.ts: exponential backoff with a cap and jitter. */
module Backoff {
  const BASE_DELAY := 2000
  const MAX_DELAY := 30000

  function Pow2(n: nat): nat { if n == 0 then 1 else 2 * Pow2(n - 1) }

  function CappedDelay(attempt: nat): nat
    requires attempt >= 1
  {
    var exponential := BASE_DELAY * Pow2(attempt - 1);
    if exponential < MAX_DELAY then exponential else MAX_DELAY
  }

  /** `random` is what Math.random() returned; a Date drops the fraction of a millisecond. */
  function RetryAt(attempt: nat, random: real, now: int): int
    requires attempt >= 1 && 0.0 <= random < 1.0
  {
    var capped := CappedDelay(attempt) as real;
    now + (capped + random * capped * 0.5).Floor
  }

  lemma Pow2Doubles(n: nat)
    requires n >= 4
    ensures Pow2(n) >= 16
    decreases n
  {
    if n > 4 {
      Pow2Doubles(n - 1);
    }
  }

  lemma CappedDelays(attempt: nat)
    requires attempt >= 1
    ensures CappedDelay(attempt) ==
      if attempt == 1 then 2000 else if attempt == 2 then 4000 else if attempt == 3 then 8000
      else if attempt == 4 then 16000 else 30000
  {
    if attempt >= 5 {
      Pow2Doubles(attempt - 1);
    } else {
      assert Pow2(1) == 2 && Pow2(2) == 4 && Pow2(3) == 8;
    }
  }

  /** The realised delay after attempt k lies in [c_k, 1.5 * c_k). */
  lemma DelayBounds(attempt: nat, random: real, now: int)
    requires attempt >= 1 && 0.0 <= random < 1.0
    ensures
      var delay, capped := RetryAt(attempt, random, now) - now, CappedDelay(attempt);
      capped <= delay && 2 * delay < 3 * capped
  {
    CappedDelays(attempt);
    var capped := CappedDelay(attempt) as real;
    var jitter := random * capped * 0.5;
    assert 0.0 <= jitter by { assert random * capped >= 0.0; }
    assert jitter < capped * 0.5 by { assert random * capped < 1.0 * capped; }
    assert (capped + jitter).Floor as real <= capped + jitter;
  }

  /** A delay that the backoff after this attempt may come to. */
  predicate Drawn(attempt: nat, delay: nat) {
    attempt >= 1 && CappedDelay(attempt) <= delay && 2 * delay < 3 * CappedDelay(attempt)
  }

  /** Exactly these delays are drawn. */
  lemma DrawnIff(attempt: nat, delay: nat, now: int)
    requires attempt >= 1
    ensures Drawn(attempt, delay) <==>
            exists random: real :: 0.0 <= random < 1.0 && RetryAt(attempt, random, now) == now + delay
  {
    CappedDelays(attempt);
    var capped := CappedDelay(attempt) as real;
    if Drawn(attempt, delay) {
      var jitter := (delay - CappedDelay(attempt)) as real;
      var random := 2.0 * jitter / capped;
      assert 0.0 <= random < 1.0 by { Fraction(2.0 * jitter, capped); }
      assert random * capped == 2.0 * jitter;
      assert RetryAt(attempt, random, now) == now + delay;
    }
    if random: real :| 0.0 <= random < 1.0 && RetryAt(attempt, random, now) == now + delay {
      DelayBounds(attempt, random, now);
    }
  }

  lemma Fraction(x: real, y: real)
    requires 0.0 <= x < y
    ensures 0.0 <= x / y < 1.0
  {
  }

  /** Up to the fifth attempt delays grow, whatever the jitter. */
  lemma DelaysGrow(attempt: nat, random: real, random': real, now: int, now': int)
    requires 1 <= attempt < 5 && 0.0 <= random < 1.0 && 0.0 <= random' < 1.0
    ensures RetryAt(attempt, random, now) - now < RetryAt(attempt + 1, random', now') - now'
  {
    DelayBounds(attempt, random, now);
    DelayBounds(attempt + 1, random', now');
    CappedDelays(attempt);
    CappedDelays(attempt + 1);
  }

  /** The delays of retries 1..|randoms| added up. */
  function TotalDelay(randoms: seq<real>): int
    requires forall i :: 0 <= i < |randoms| ==> 0.0 <= randoms[i] < 1.0
    decreases |randoms|
  {
    if randoms == [] then 0
    else TotalDelay(randoms[..|randoms| - 1]) + RetryAt(|randoms|, randoms[|randoms| - 1], 0)
  }

  /** The closed form of the sum of the capped delays. */
  function LeastTotal(retries: nat): int {
    if retries <= 4 then 2000 * (Pow2(retries) - 1) else 30000 * (retries - 3)
  }

  /** m >= 1 retries wait at least S(m) and less than 1.5 * S(m) in all. */
  lemma {:induction false} TotalBounds(randoms: seq<real>)
    requires |randoms| >= 1
    requires forall i :: 0 <= i < |randoms| ==> 0.0 <= randoms[i] < 1.0
    ensures LeastTotal(|randoms|) <= TotalDelay(randoms)
    ensures 2 * TotalDelay(randoms) < 3 * LeastTotal(|randoms|)
    decreases |randoms|
  {
    var m := |randoms|;
    DelayBounds(m, randoms[m - 1], 0);
    CappedDelays(m);
    assert Pow2(1) == 2 && Pow2(2) == 4 && Pow2(3) == 8 && Pow2(4) == 16;
    if m > 1 {
      TotalBounds(randoms[..m - 1]);
    } else {
      assert TotalDelay(randoms[..0]) == 0;
    }
  }
}
