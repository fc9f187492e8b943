/** The fee-bucket epoch counter and its cleanup metrics
    (contracts/attestation/src/dynamic_fees.rs): every submission rolls the epoch forward by
    the windows that have elapsed, and every epoch boundary reports the cleanups of the epoch
    that ends.
 */
module Epochs {
  import opened Base

  const FEE_BUCKET_WINDOW_SECONDS: nat := 86_400

  /** Events of an epoch boundary: the cleanups of the ending epoch, then the new epoch. */
  datatype Note =
    | Summary(epoch: nat, removed: nat, at: nat)
    | Advanced(epoch: nat, at: nat)

  datatype Clock = Clock(epoch: nat, bucket: Option<nat>, cleanups: map<nat, nat>, log: seq<Note>) {
    function CleanupsIn(e: nat): nat {
      Get(cleanups, e, 0)
    }
  }

  const Unstarted := Clock(0, None, map[], [])

  /* ---------- Specification ---------- */

  function Advance(c: Clock, now: nat): Clock {
    c.(epoch := c.epoch + 1,
       log := c.log + [Summary(c.epoch, c.CleanupsIn(c.epoch), now), Advanced(c.epoch + 1, now)])
  }

  function AdvanceBy(c: Clock, now: nat, windows: nat): Clock {
    if windows == 0 then c else Advance(AdvanceBy(c, now, windows - 1), now)
  }

  function BucketOf(now: nat): nat {
    now / FEE_BUCKET_WINDOW_SECONDS
  }

  /** The first call opens epoch 1; later calls advance once per elapsed window. The bucket is
      stored even when the ledger clock went backwards. */
  function RollOver(c: Clock, now: nat): Clock {
    var elapsed :=
      match c.bucket
      case None => 1
      case Some(last) => SatSub(BucketOf(now), last);
    AdvanceBy(c, now, elapsed).(bucket := Some(BucketOf(now)))
  }

  function CountCleanup(c: Clock): Clock {
    c.(cleanups := c.cleanups[c.epoch := SatAdd(c.CleanupsIn(c.epoch), 1, U64_MAX)])
  }

  lemma {:induction false} AdvanceByEffect(c: Clock, now: nat, windows: nat)
    ensures AdvanceBy(c, now, windows).epoch == c.epoch + windows
    ensures c.log <= AdvanceBy(c, now, windows).log
    ensures AdvanceBy(c, now, windows).cleanups == c.cleanups
    ensures AdvanceBy(c, now, windows).bucket == c.bucket
  {
    if windows > 0 {
      AdvanceByEffect(c, now, windows - 1);
    }
  }

  /* ---------- Runs ---------- */

  /** A submission at some ledger time, or a successful cleanup. */
  datatype Call = Submits(now: nat) | Cleans

  function Apply(c: Clock, call: Call): Clock {
    match call
    case Submits(now) => RollOver(c, now)
    case Cleans => CountCleanup(c)
  }

  function After(calls: seq<Call>): Clock {
    if calls == [] then Unstarted else Apply(After(calls[..|calls| - 1]), calls[|calls| - 1])
  }

  /** The buckets of the submissions of a run, in order. */
  function Buckets(calls: seq<Call>): seq<nat> {
    if calls == [] then []
    else
      var last := calls[|calls| - 1];
      Buckets(calls[..|calls| - 1]) + if last.Submits? then [BucketOf(last.now)] else []
  }

  function TotalCleanups(calls: seq<Call>): nat {
    if calls == [] then 0
    else TotalCleanups(calls[..|calls| - 1]) + if calls[|calls| - 1].Cleans? then 1 else 0
  }

  /** By how much the buckets fall, summed over every backward step. */
  function Descent(bs: seq<nat>): nat {
    if |bs| < 2 then 0 else Descent(bs[..|bs| - 1]) + SatSub(bs[|bs| - 2], bs[|bs| - 1])
  }

  ghost predicate NeverBack(bs: seq<nat>) {
    forall i, j :: 0 <= i < j < |bs| ==> bs[i] <= bs[j]
  }

  lemma {:induction false} NoDescentIff(bs: seq<nat>)
    ensures Descent(bs) == 0 <==> NeverBack(bs)
  {
    if |bs| >= 2 {
      var front := bs[..|bs| - 1];
      NoDescentIff(front);
      assert NeverBack(bs) ==> bs[|bs| - 2] <= bs[|bs| - 1];
      if NeverBack(front) && bs[|bs| - 2] <= bs[|bs| - 1] {
        forall i, j | 0 <= i < j < |bs| ensures bs[i] <= bs[j] {
          assert front[|front| - 1] == bs[|bs| - 2];
          if j == |bs| - 1 && i < |bs| - 2 {
            assert front[i] <= front[|front| - 1];
          }
        }
      } else if NeverBack(bs) {
        assert NeverBack(front);
      }
    }
  }

  /** The epoch in terms of the buckets seen so far. */
  ghost predicate EpochFollows(c: Clock, bs: seq<nat>) {
    if bs == [] then c.epoch == 0 && c.bucket == None
    else
      && c.bucket == Some(bs[|bs| - 1])
      && c.epoch == bs[|bs| - 1] - bs[0] + 1 + Descent(bs)
  }

  lemma {:induction false} EpochAfterRun(calls: seq<Call>)
    ensures EpochFollows(After(calls), Buckets(calls))
  {
    if calls != [] {
      var front, last := calls[..|calls| - 1], calls[|calls| - 1];
      EpochAfterRun(front);
      if last.Submits? {
        var c, bs, b := After(front), Buckets(front), BucketOf(last.now);
        assert (bs + [b])[..|bs|] == bs;
        AdvanceByEffect(c, last.now, if c.bucket == None then 1 else SatSub(b, c.bucket.value));
      } else {
        assert Buckets(calls) == Buckets(front);
      }
    }
  }

  /** After any run with a submission the epoch is the last bucket minus the first, plus one,
      plus whatever the ledger clock fell back in between. So the documented reading of the
      epoch holds exactly when the clock never fell back to an earlier bucket. */
  lemma EpochIsElapsedBucketsIff(calls: seq<Call>)
    requires Buckets(calls) != []
    ensures
      var bs := Buckets(calls);
      && After(calls).epoch + bs[0] == bs[|bs| - 1] + 1 + Descent(bs)
      && (After(calls).epoch + bs[0] == bs[|bs| - 1] + 1 <==> NeverBack(bs))
  {
    EpochAfterRun(calls);
    NoDescentIff(Buckets(calls));
  }

  /* ---------- Cleanup summaries ---------- */

  /** The log holds one boundary per ended epoch, in order, and every reported count still is
      the stored count of that epoch. */
  ghost predicate Reported(c: Clock) {
    && |c.log| == 2 * c.epoch
    && (forall e: nat :: e < c.epoch ==> ReportsEpoch(c, e))
    && (forall e :: e in c.cleanups ==> e <= c.epoch)
  }

  ghost predicate ReportsEpoch(c: Clock, e: nat)
    requires 2 * e + 1 < |c.log|
  {
    && c.log[2 * e].Summary? && c.log[2 * e].epoch == e && c.log[2 * e].removed == c.CleanupsIn(e)
    && c.log[2 * e + 1].Advanced? && c.log[2 * e + 1].epoch == e + 1
  }

  lemma AdvanceKeepsReported(c: Clock, now: nat)
    requires Reported(c)
    ensures Reported(Advance(c, now))
  {
    var d := Advance(c, now);
    forall e: nat | e < d.epoch ensures ReportsEpoch(d, e) {
      if e < c.epoch {
        assert ReportsEpoch(c, e);
      }
    }
  }

  lemma {:induction false} AdvanceByKeepsReported(c: Clock, now: nat, windows: nat)
    requires Reported(c)
    ensures Reported(AdvanceBy(c, now, windows))
  {
    if windows > 0 {
      AdvanceByKeepsReported(c, now, windows - 1);
      AdvanceKeepsReported(AdvanceBy(c, now, windows - 1), now);
    }
  }

  lemma ApplyKeepsReported(c: Clock, call: Call)
    requires Reported(c)
    ensures Reported(Apply(c, call))
    ensures c.log <= Apply(c, call).log
  {
    match call
    case Submits(now) =>
      var windows := if c.bucket == None then 1 else SatSub(BucketOf(now), c.bucket.value);
      AdvanceByKeepsReported(c, now, windows);
      AdvanceByEffect(c, now, windows);
      var d := AdvanceBy(c, now, windows);
      forall e: nat | e < d.epoch ensures ReportsEpoch(RollOver(c, now), e) {
        assert ReportsEpoch(d, e);
      }
    case Cleans =>
      forall e: nat | e < c.epoch ensures ReportsEpoch(CountCleanup(c), e) {
        assert ReportsEpoch(c, e);
      }
  }

  /** In every run, even one whose clock goes backwards, each ended epoch has exactly one
      summary, in order, carrying a count that no later cleanup changes. */
  lemma {:induction false} EveryEndedEpochIsReported(calls: seq<Call>)
    ensures Reported(After(calls))
  {
    if calls != [] {
      EveryEndedEpochIsReported(calls[..|calls| - 1]);
      ApplyKeepsReported(After(calls[..|calls| - 1]), calls[|calls| - 1]);
    }
  }

  /** A reported count is final. */
  lemma {:induction false} ReportsAreFinal(calls: seq<Call>, more: seq<Call>, e: nat)
    requires e < After(calls).epoch
    ensures After(calls).epoch <= After(calls + more).epoch
    ensures After(calls).log <= After(calls + more).log
    ensures After(calls + more).CleanupsIn(e) == After(calls).CleanupsIn(e)
  {
    if more == [] {
      assert calls + more == calls;
    } else {
      var front, last := more[..|more| - 1], more[|more| - 1];
      ReportsAreFinal(calls, front, e);
      assert (calls + more)[..|calls + more| - 1] == calls + front;
      var c := After(calls + front);
      EveryEndedEpochIsReported(calls + front);
      ApplyKeepsReported(c, last);
      if last.Submits? {
        AdvanceByEffect(c, last.now, if c.bucket == None then 1 else SatSub(BucketOf(last.now), c.bucket.value));
      }
    }
  }

  /* ---------- No cleanup is lost ---------- */

  function SumOfCounts(c: Clock, n: nat): nat {
    if n == 0 then 0 else SumOfCounts(c, n - 1) + c.CleanupsIn(n - 1)
  }

  /** What the summaries in the log add up to. */
  function SumReported(log: seq<Note>): nat {
    if log == [] then 0
    else
      var last := log[|log| - 1];
      SumReported(log[..|log| - 1]) + if last.Summary? then last.removed else 0
  }

  lemma {:induction false} SumOfCountsSame(c: Clock, d: Clock, n: nat)
    requires forall e: nat :: e < n ==> c.CleanupsIn(e) == d.CleanupsIn(e)
    ensures SumOfCounts(c, n) == SumOfCounts(d, n)
  {
    if n > 0 {
      SumOfCountsSame(c, d, n - 1);
    }
  }

  lemma {:induction false} SumIsMonotone(c: Clock, n: nat, m: nat)
    requires n <= m
    ensures SumOfCounts(c, n) <= SumOfCounts(c, m)
    decreases m
  {
    if n < m {
      SumIsMonotone(c, n, m - 1);
    }
  }

  lemma {:induction false} NothingBeyond(c: Clock, d: Clock, n: nat)
    requires Reported(c) && n >= c.epoch + 1 && d.cleanups == c.cleanups
    ensures SumOfCounts(d, n) == SumOfCounts(c, c.epoch + 1)
  {
    if n > c.epoch + 1 {
      NothingBeyond(c, d, n - 1);
    } else {
      SumOfCountsSame(c, d, n);
    }
  }

  lemma {:induction false} CountsAddUp(calls: seq<Call>)
    requires TotalCleanups(calls) <= U64_MAX
    ensures SumOfCounts(After(calls), After(calls).epoch + 1) == TotalCleanups(calls)
  {
    if calls == [] {
      assert SumOfCounts(Unstarted, 1) == SumOfCounts(Unstarted, 0);
    } else {
      var front, last := calls[..|calls| - 1], calls[|calls| - 1];
      CountsAddUp(front);
      EveryEndedEpochIsReported(front);
      var c, d := After(front), After(calls);
      match last
      case Submits(now) =>
        AdvanceByEffect(c, now, if c.bucket == None then 1 else SatSub(BucketOf(now), c.bucket.value));
        NothingBeyond(c, d, d.epoch + 1);
      case Cleans =>
        SumOfCountsSame(c, d, c.epoch);
        SumIsMonotone(c, 0, c.epoch);
    }
  }

  lemma {:induction false} ReportsAddUp(c: Clock, n: nat)
    requires Reported(c) && n <= c.epoch
    ensures SumReported(c.log[..2 * n]) == SumOfCounts(c, n)
  {
    if n > 0 {
      ReportsAddUp(c, n - 1);
      assert ReportsEpoch(c, n - 1);
      assert c.log[..2 * n][..2 * n - 1] == c.log[..2 * n - 1];
      assert c.log[..2 * n - 1][..2 * n - 2] == c.log[..2 * (n - 1)];
      assert c.log[..2 * n][2 * n - 1] == c.log[2 * (n - 1) + 1];
      assert c.log[..2 * n - 1][2 * n - 2] == c.log[2 * (n - 1)];
    }
  }

  /** The emitted summaries plus the count of the current epoch equal all cleanups ever made,
      as long as no counter reached the end of its 64-bit range. */
  lemma NoCleanupIsLost(calls: seq<Call>)
    requires TotalCleanups(calls) <= U64_MAX
    ensures SumReported(After(calls).log) + After(calls).CleanupsIn(After(calls).epoch) == TotalCleanups(calls)
  {
    var c := After(calls);
    CountsAddUp(calls);
    EveryEndedEpochIsReported(calls);
    ReportsAddUp(c, c.epoch);
    assert c.log[..2 * c.epoch] == c.log;
  }

  /* ---------- The contract ---------- */

  class EpochCounter {
    var epoch: nat
    var bucket: Option<nat>
    var cleanups: map<nat, nat>
    var log: seq<Note>

    function Model(): Clock
      reads this
    {
      Clock(epoch, bucket, cleanups, log)
    }

    constructor ()
      ensures Model() == Unstarted
    {
      epoch, bucket, cleanups, log := 0, None, map[], [];
    }

    /** Brings back the storage of an aborted transaction. */
    method Restore(to: Clock)
      modifies this
      ensures Model() == to
    {
      epoch, bucket, cleanups, log := to.epoch, to.bucket, to.cleanups, to.log;
    }

    method AdvanceEpoch(now: nat) returns (reached: nat)
      modifies this
      ensures Model() == Advance(old(Model()), now) && reached == epoch
    {
      log := log + [Summary(epoch, Get(cleanups, epoch, 0), now)];
      epoch := epoch + 1;
      log := log + [Advanced(epoch, now)];
      reached := epoch;
    }

    method HandleEpochRollover(now: nat)
      modifies this
      ensures Model() == RollOver(old(Model()), now)
    {
      var current := now / FEE_BUCKET_WINDOW_SECONDS;
      if bucket == None {
        var _ := AdvanceEpoch(now);
        assert AdvanceBy(old(Model()), now, 1) == Advance(AdvanceBy(old(Model()), now, 0), now);
      } else if current > bucket.value {
        for i := 0 to current - bucket.value
          invariant Model() == AdvanceBy(old(Model()), now, i)
          invariant bucket == old(bucket)
        {
          var _ := AdvanceEpoch(now);
        }
      }
      bucket := Some(current);
    }

    method IncrementCleanupCount()
      modifies this
      ensures Model() == CountCleanup(old(Model()))
    {
      cleanups := cleanups[epoch := SatAdd(Get(cleanups, epoch, 0), 1, U64_MAX)];
    }
  }
}
