/** The I2C byte transport as the drivers see it: WriteBytes hands one byte
    to the expander and may fail. Failures are given by an oracle, the set
    of attempt numbers (0, 1, 2, ... in the order the driver makes them) at
    which the write fails.

    Two error policies appear in the drivers. The current driver logs a
    failed write and carries on, so every byte it means to send is
    attempted. The older driver and the prototype call log.Fatal, so the
    process ends after the first failed attempt and nothing further is
    written. */
module Bus {

  /** Some attempt among the first n fails. */
  predicate HaltedAfter(failing: set<nat>, n: nat) {
    exists k :: 0 <= k < n && k in failing
  }

  /** How many of the first n attempted bytes reach the bus when the
      process ends after the first failed attempt: all n while no attempt
      has failed, otherwise those up to and including the first failure. */
  function SentCount(failing: set<nat>, n: nat): (c: nat)
    ensures c <= n
    decreases n
  {
    if n == 0 then 0
    else if HaltedAfter(failing, n - 1) then SentCount(failing, n - 1)
    else n
  }

  /** The bytes handed to the bus when the driver means to send `intended`
      and the process ends after the first failed attempt. */
  function Sent(failing: set<nat>, intended: seq<bv8>): seq<bv8> {
    intended[..SentCount(failing, |intended|)]
  }

  /** While no attempt has failed, every byte is sent. */
  lemma SentCountAll(failing: set<nat>, n: nat)
    requires !HaltedAfter(failing, n)
    ensures SentCount(failing, n) == n
  {
    if n > 0 {
      HaltedAfterStep(failing, n - 1);
    }
  }

  /** Once an attempt has failed, the count of bytes sent stays fixed. */
  lemma {:induction false} SentCountStops(failing: set<nat>, m: nat, n: nat)
    requires m <= n && HaltedAfter(failing, m)
    ensures SentCount(failing, n) == SentCount(failing, m) && HaltedAfter(failing, n)
    decreases n
  {
    if m < n {
      SentCountStops(failing, m, n - 1);
      var k :| 0 <= k < m && k in failing;
      assert 0 <= k < n && k in failing;
    }
  }

  /** What is sent is a prefix of what was meant, and all of it when no
      attempt fails. */
  lemma SentPrefix(failing: set<nat>, intended: seq<bv8>)
    ensures |Sent(failing, intended)| <= |intended|
    ensures Sent(failing, intended) == intended[..|Sent(failing, intended)|]
    ensures !HaltedAfter(failing, |intended|) ==> Sent(failing, intended) == intended
  {
    if !HaltedAfter(failing, |intended|) {
      SentCountAll(failing, |intended|);
      assert intended[..|intended|] == intended;
    }
  }

  /** Attempt numbers below n that fail, in increasing order: one log line
      each under the log-and-continue policy. */
  function FailedAttempts(failing: set<nat>, n: nat): (r: seq<nat>)
    ensures forall k :: 0 <= k < |r| ==> r[k] < n && r[k] in failing
    ensures forall i, j :: 0 <= i < j < |r| ==> r[i] < r[j]
    decreases n
  {
    if n == 0 then []
    else FailedAttempts(failing, n - 1) + (if n - 1 in failing then [n - 1] else [])
  }

  lemma HaltedAfterStep(failing: set<nat>, n: nat)
    ensures HaltedAfter(failing, n + 1) <==> HaltedAfter(failing, n) || n in failing
  {
    if n in failing {
      assert 0 <= n < n + 1 && n in failing;
    }
  }

  /** Sending more: nothing once halted; everything when no attempt of the
      whole run fails. */
  lemma SentExtend(failing: set<nat>, a: seq<bv8>, b: seq<bv8>)
    ensures HaltedAfter(failing, |a|) ==> Sent(failing, a + b) == Sent(failing, a) && HaltedAfter(failing, |a + b|)
    ensures !HaltedAfter(failing, |a + b|) ==> Sent(failing, a + b) == Sent(failing, a) + b && !HaltedAfter(failing, |a|)
  {
    if HaltedAfter(failing, |a|) {
      SentCountStops(failing, |a|, |a + b|);
      assert (a + b)[..SentCount(failing, |a|)] == a[..SentCount(failing, |a|)];
    } else if !HaltedAfter(failing, |a + b|) {
      SentPrefix(failing, a);
      SentPrefix(failing, a + b);
    }
  }

  /** The bytes sent run up to and including the first failed attempt. */
  lemma {:induction false} SentUpToFirstFailure(failing: set<nat>, intended: seq<bv8>, k: nat)
    requires k < |intended| && k in failing
    requires forall j :: 0 <= j < k ==> j !in failing
    ensures Sent(failing, intended) == intended[..k + 1]
  {
    assert !HaltedAfter(failing, k);
    SentCountAll(failing, k);
    assert SentCount(failing, k + 1) == k + 1;
    assert 0 <= k < k + 1 && k in failing;
    SentCountStops(failing, k + 1, |intended|);
  }

  /** Every failing attempt below n is logged, once. */
  lemma {:induction false} FailedAttemptsComplete(failing: set<nat>, n: nat, k: nat)
    requires k < n
    ensures k in FailedAttempts(failing, n) <==> k in failing
    decreases n
  {
    if k < n - 1 {
      FailedAttemptsComplete(failing, n - 1, k);
    } else if k !in failing {
      assert k !in FailedAttempts(failing, n - 1);
    }
  }
}
