/** The sliding-window limit over whole runs of the attestation contract: singles and batches
    draw on the same windows.
 */
module AttestationLimits {
  import opened Base
  import opened Attestations
  import Runs = AttestationRuns
  import DynamicFees
  import RateLimit

  function BatchSteps(items: seq<Item>, now: nat): seq<RateLimit.Step> {
    if items == [] then []
    else BatchSteps(items[..|items| - 1], now) + [RateLimit.Submit(items[|items| - 1].key.business, now)]
  }

  /** What a committed call does to the limiter. */
  function StepsOf(c: Runs.Call): seq<RateLimit.Step> {
    match c
    case Submits(env, _, _, item) => [RateLimit.Submit(item.key.business, env.now)]
    case SubmitsBatch(env, _, items) => BatchSteps(items, env.now)
    case SetsLimits(limits) => [RateLimit.Reconfigure(limits)]
    case _ => []
  }

  /** Everything that a run did to the limiter. */
  function Steps(calls: seq<Runs.Call>): seq<RateLimit.Step> {
    if calls == [] then []
    else
      var front, last := calls[..|calls| - 1], calls[|calls| - 1];
      Steps(front) + if Runs.Attempt(Runs.After(front), last).Some? then StepsOf(last) else []
  }

  /** Call `n` sets the limits and no later call does; anything at all may come before it. */
  ghost predicate LimitsSince(calls: seq<Runs.Call>, n: nat, c: RateLimit.Config) {
    && n < |calls|
    && calls[n] == Runs.SetsLimits(c)
    && forall i :: n < i < |calls| ==> !calls[i].SetsLimits?
  }

  /** Every attempt that a run made after call `n`. */
  function Accepted(calls: seq<Runs.Call>, n: nat): seq<RateLimit.Step> {
    if |calls| <= n + 1 then []
    else
      var front, last := calls[..|calls| - 1], calls[|calls| - 1];
      Accepted(front, n) + if Runs.Attempt(Runs.After(front), last).Some? then StepsOf(last) else []
  }

  /** The multi-period ranges of `b` since call `n`; they count but pass no limit. */
  function Ranges(calls: seq<Runs.Call>, n: nat, b: Address): nat {
    if |calls| <= n + 1 then 0
    else
      var front, last := calls[..|calls| - 1], calls[|calls| - 1];
      Ranges(front, n, b)
      + if last.IssuesRange? && last.business == b && Runs.Attempt(Runs.After(front), last).Some? then 1 else 0
  }

  /** The limiter's own run up to and including call `n`. */
  function StartAt(calls: seq<Runs.Call>, n: nat, c: RateLimit.Config): RateLimit.Run
    requires n < |calls|
  {
    RateLimit.After(RateLimit.Start, Steps(calls[..n]) + [RateLimit.Reconfigure(c)])
  }

  /** The contract and the limiter's own run agree, and beyond a base count each business has
      been counted once per entry that its history gained since `start`. */
  ghost predicate Linked(start: RateLimit.Run, r: RateLimit.Run, l: Ledger, base: map<Address, nat>) {
    && r.limiter == l.limiter
    && l.limiter.Enforced()
    && forall b :: |r.History(b)| - |start.History(b)| + Get(base, b, 0) == l.schedule.CountOf(b)
  }

  lemma {:induction false} AfterConcat(r: RateLimit.Run, s: seq<RateLimit.Step>, t: seq<RateLimit.Step>)
    ensures RateLimit.After(r, s + t) == RateLimit.After(RateLimit.After(r, s), t)
  {
    if t == [] {
      assert s + t == s;
    } else {
      assert (s + t)[..|s + t| - 1] == s + t[..|t| - 1];
      AfterConcat(r, s, t[..|t| - 1]);
    }
  }

  lemma {:induction false} BatchStepsSubmit(items: seq<Item>, now: nat)
    ensures RateLimit.OnlySubmits(BatchSteps(items, now))
  {
    if items != [] {
      BatchStepsSubmit(items[..|items| - 1], now);
    }
  }

  lemma AdmissionLinks(start: RateLimit.Run, r: RateLimit.Run, l: Ledger, base: map<Address, nat>, after: Ledger,
                       b: Address, now: nat)
    requires Linked(start, r, l, base) && RateLimit.Admit(l.limiter, b, now) == Some(after.limiter)
    requires after.schedule.counts == l.schedule.counts[b := l.schedule.CountOf(b) + 1]
    ensures Linked(start, RateLimit.Next(r, RateLimit.Submit(b, now)), after, base)
  {
    var next := RateLimit.Next(r, RateLimit.Submit(b, now));
    forall x ensures |next.History(x)| - |start.History(x)| + Get(base, x, 0) == after.schedule.CountOf(x) {
      assert |r.History(x)| - |start.History(x)| + Get(base, x, 0) == l.schedule.CountOf(x);
    }
  }

  lemma StoreRecords(l: Ledger, env: Env, attestor: Option<Address>, item: Item, c: Charged, after: Ledger)
    requires Store(l, env, attestor, item, c) == Some(after)
    ensures after.limiter == RateLimit.Record(l.limiter, item.key.business, env.now)
    ensures after.schedule.counts == l.schedule.counts[item.key.business := l.schedule.CountOf(item.key.business) + 1]
  {
  }

  lemma PerformAdmits(l: Ledger, env: Env, payer: Address, attestor: Option<Address>, item: Item, after: Ledger)
    requires Perform(l, env, payer, attestor, item) == Some(after)
    ensures RateLimit.Admit(l.limiter, item.key.business, env.now) == Some(after.limiter)
    ensures after.schedule.counts == l.schedule.counts[item.key.business := l.schedule.CountOf(item.key.business) + 1]
  {
    Runs.PerformSteps(l, env, payer, attestor, item);
    var checked := RateLimit.Check(l.limiter, item.key.business, env.now).value;
    var charged := Charge(l, payer, item.key.business).value;
    StoreRecords(RollEpoch(l.(limiter := checked), env.now), env, attestor, item, charged, after);
  }

  lemma OneMoreLinks(start: RateLimit.Run, r: RateLimit.Run, before: Ledger, base: map<Address, nat>,
                     front: seq<Item>, item: Item, now: nat, after: Ledger)
    requires Linked(start, RateLimit.After(r, BatchSteps(front, now)), before, base)
    requires RateLimit.Admit(before.limiter, item.key.business, now) == Some(after.limiter)
    requires
      var b := item.key.business;
      after.schedule.counts == before.schedule.counts[b := before.schedule.CountOf(b) + 1]
    ensures Linked(start, RateLimit.After(r, BatchSteps(front + [item], now)), after, base)
  {
    AdmissionLinks(start, RateLimit.After(r, BatchSteps(front, now)), before, base, after, item.key.business, now);
    BatchStepsLast(r, front, item, now);
  }

  lemma BatchStepsLast(r: RateLimit.Run, front: seq<Item>, item: Item, now: nat)
    ensures RateLimit.After(r, BatchSteps(front + [item], now)) ==
              RateLimit.Next(RateLimit.After(r, BatchSteps(front, now)), RateLimit.Submit(item.key.business, now))
  {
    assert (front + [item])[..|front|] == front;
    var steps := BatchSteps(front + [item], now);
    assert steps[..|steps| - 1] == BatchSteps(front, now);
  }

  lemma {:induction false} PerformsLink(start: RateLimit.Run, r: RateLimit.Run, l: Ledger,
                                        base: map<Address, nat>, env: Env, attestor: Option<Address>,
                                        items: seq<Item>, after: Ledger)
    requires Linked(start, r, l, base) && Performs(l, env, attestor, items) == Some(after)
    ensures Linked(start, RateLimit.After(r, BatchSteps(items, env.now)), after, base)
  {
    if items == [] {
      assert after == l;
    } else {
      var front, last := items[..|items| - 1], items[|items| - 1];
      var before := Performs(l, env, attestor, front).value;
      PerformsLink(start, r, l, base, env, attestor, front, before);
      PerformAdmits(before, env, PayerOf(attestor, last), attestor, last, after);
      OneMoreLinks(start, r, before, base, front, last, env.now, after);
      assert items == front + [last];
    }
  }

  /** What one committed call adds to the counts without passing the limiter. */
  function Bypass(base: map<Address, nat>, c: Runs.Call): map<Address, nat> {
    if c.IssuesRange? then base[c.business := Get(base, c.business, 0) + 1] else base
  }

  lemma OtherCallsLink(start: RateLimit.Run, r: RateLimit.Run, l: Ledger, base: map<Address, nat>, c: Runs.Call,
                       after: Ledger)
    requires Linked(start, r, l, base) && !c.SetsLimits? && !c.Submits? && !c.SubmitsBatch?
    requires Runs.Attempt(l, c) == Some(after)
    ensures Linked(start, r, after, Bypass(base, c))
  {
    OtherCallsKeepLimits(l, c, after);
    forall b ensures |r.History(b)| - |start.History(b)| + Get(Bypass(base, c), b, 0) == after.schedule.CountOf(b) {
      assert |r.History(b)| - |start.History(b)| + Get(base, b, 0) == l.schedule.CountOf(b);
    }
  }

  lemma SubmitLinks(start: RateLimit.Run, r: RateLimit.Run, l: Ledger, base: map<Address, nat>, env: Env,
                    payer: Address, attestor: Option<Address>, item: Item, after: Ledger)
    requires Linked(start, r, l, base) && Perform(l, env, payer, attestor, item) == Some(after)
    ensures Linked(start, RateLimit.After(r, [RateLimit.Submit(item.key.business, env.now)]), after, base)
  {
    PerformAdmits(l, env, payer, attestor, item, after);
    AdmissionLinks(start, r, l, base, after, item.key.business, env.now);
    AfterOne(r, RateLimit.Submit(item.key.business, env.now));
  }

  lemma CallLinks(start: RateLimit.Run, r: RateLimit.Run, l: Ledger, base: map<Address, nat>, c: Runs.Call,
                  after: Ledger)
    requires Linked(start, r, l, base) && !c.SetsLimits? && Runs.Attempt(l, c) == Some(after)
    ensures Linked(start, RateLimit.After(r, StepsOf(c)), after, Bypass(base, c))
    ensures RateLimit.OnlySubmits(StepsOf(c))
  {
    if c.Submits? {
      SubmitLinks(start, r, l, base, c.env, c.payer, c.attestor, c.item, after);
    } else if c.SubmitsBatch? {
      PerformsLink(start, r, l, base, c.env, c.batchAttestor, c.items, after);
      BatchStepsSubmit(c.items, c.env.now);
    } else {
      OtherCallsLink(start, r, l, base, c, after);
    }
  }

  lemma AfterOne(r: RateLimit.Run, step: RateLimit.Step)
    ensures RateLimit.After(r, [step]) == RateLimit.Next(r, step)
  {
    assert [step][..0] == [];
    assert RateLimit.After(r, [step]) == RateLimit.Next(RateLimit.After(r, [step][..0]), step);
  }

  lemma OtherCallsKeepLimits(l: Ledger, c: Runs.Call, after: Ledger)
    requires !c.SetsLimits? && !c.Submits? && !c.SubmitsBatch? && Runs.Attempt(l, c) == Some(after)
    ensures after.limiter == l.limiter
    ensures after.schedule.counts ==
              if c.IssuesRange? then l.schedule.counts[c.business := l.schedule.CountOf(c.business) + 1]
              else l.schedule.counts
  {
    if c.SetsFees? {
      DynamicFees.SettersKeepCounts(l.schedule, c.fees);
    } else if !c.IssuesRange? {
      assert after.schedule == l.schedule;
    }
  }

  /* ---------- The limiter of the contract is the limiter run alone ---------- */

  lemma {:induction false} PerformsFollow(r: RateLimit.Run, l: Ledger, env: Env, attestor: Option<Address>,
                                          items: seq<Item>, after: Ledger)
    requires r.limiter == l.limiter && Performs(l, env, attestor, items) == Some(after)
    ensures RateLimit.After(r, BatchSteps(items, env.now)).limiter == after.limiter
  {
    if items == [] {
      assert after == l;
    } else {
      var front, last := items[..|items| - 1], items[|items| - 1];
      var before := Performs(l, env, attestor, front).value;
      PerformsFollow(r, l, env, attestor, front, before);
      PerformAdmits(before, env, PayerOf(attestor, last), attestor, last, after);
      BatchStepsLast(r, front, last, env.now);
      assert items == front + [last];
    }
  }

  lemma CallFollows(r: RateLimit.Run, l: Ledger, c: Runs.Call, after: Ledger)
    requires r.limiter == l.limiter && Runs.Attempt(l, c) == Some(after)
    ensures RateLimit.After(r, StepsOf(c)).limiter == after.limiter
  {
    match c
    case Submits(env, payer, attestor, item) =>
      PerformAdmits(l, env, payer, attestor, item, after);
      AfterOne(r, RateLimit.Submit(item.key.business, env.now));
    case SubmitsBatch(env, attestor, items) => PerformsFollow(r, l, env, attestor, items, after);
    case SetsLimits(limits) => AfterOne(r, RateLimit.Reconfigure(limits));
    case _ => OtherCallsKeepLimits(l, c, after);
  }

  /** In every run, through every reconfiguration, the stored limiter is that of the limiter's
      own run on what was committed. */
  lemma {:induction false} LimiterIsLinked(calls: seq<Runs.Call>)
    ensures RateLimit.After(RateLimit.Start, Steps(calls)).limiter == Runs.After(calls).limiter
  {
    if calls != [] {
      var front, last := calls[..|calls| - 1], calls[|calls| - 1];
      LimiterIsLinked(front);
      if Runs.Attempt(Runs.After(front), last).Some? {
        CallFollows(RateLimit.After(RateLimit.Start, Steps(front)), Runs.After(front), last, Runs.After(calls));
        AfterConcat(RateLimit.Start, Steps(front), StepsOf(last));
      } else {
        assert Steps(calls) == Steps(front);
      }
    }
  }

  /** The counts when the limits were set, raised by every multi-period range since. */
  function Ahead(calls: seq<Runs.Call>, n: nat): map<Address, nat> {
    if |calls| <= n + 1 then Runs.After(calls[..Min(n, |calls|)]).schedule.counts
    else
      var front, last := calls[..|calls| - 1], calls[|calls| - 1];
      if Runs.Attempt(Runs.After(front), last).Some? then Bypass(Ahead(front, n), last) else Ahead(front, n)
  }

  lemma {:induction false} AheadMeaning(calls: seq<Runs.Call>, n: nat, b: Address)
    requires n < |calls|
    ensures Get(Ahead(calls, n), b, 0) == Runs.After(calls[..n]).schedule.CountOf(b) + Ranges(calls, n, b)
  {
    if |calls| > n + 1 {
      AheadMeaning(calls[..|calls| - 1], n, b);
      assert calls[..|calls| - 1][..n] == calls[..n];
    }
  }

  lemma LinkedAtTheStart(calls: seq<Runs.Call>, n: nat, c: RateLimit.Config)
    requires LimitsSince(calls, n, c) && c.Valid() && c.enabled && |calls| == n + 1
    ensures Linked(StartAt(calls, n, c), StartAt(calls, n, c), Runs.After(calls), Ahead(calls, n))
  {
    var front, steps := calls[..n], Steps(calls[..n]);
    assert front == calls[..|calls| - 1];
    LimiterIsLinked(front);
    assert (steps + [RateLimit.Reconfigure(c)])[..|steps|] == steps;
    assert Runs.After(calls).schedule == Runs.After(front).schedule;
  }

  lemma {:induction false} RunIsLinked(calls: seq<Runs.Call>, n: nat, c: RateLimit.Config)
    requires LimitsSince(calls, n, c) && c.Valid() && c.enabled
    ensures Linked(StartAt(calls, n, c), RateLimit.After(StartAt(calls, n, c), Accepted(calls, n)), Runs.After(calls),
                   Ahead(calls, n))
    ensures RateLimit.OnlySubmits(Accepted(calls, n))
  {
    var front, last := calls[..|calls| - 1], calls[|calls| - 1];
    if |calls| == n + 1 {
      LinkedAtTheStart(calls, n, c);
    } else {
      RunIsLinked(front, n, c);
      assert front[..n] == calls[..n];
      var start, l := StartAt(calls, n, c), Runs.After(front);
      var r := RateLimit.After(start, Accepted(front, n));
      if Runs.Attempt(l, last).Some? {
        CallLinks(start, r, l, Ahead(front, n), last, Runs.Attempt(l, last).value);
        AfterConcat(start, Accepted(front, n), StepsOf(last));
      } else {
        assert Accepted(calls, n) == Accepted(front, n);
      }
    }
  }

  /** From the call that sets the limits on, whatever came before it, earlier limits included,
      the effective times of all attestations of a business, singles and batch items alike,
      fill no closed window beyond either limit, whatever the ledger clock did. The times are as
      many as the counter of the business rose, less its multi-period ranges. */
  lemma NoWindowIsOverfullOnEitherPath(calls: seq<Runs.Call>, n: nat, c: RateLimit.Config, b: Address, from: nat)
    requires LimitsSince(calls, n, c) && c.Valid() && c.enabled
    ensures
      var start := StartAt(calls, n, c);
      var h := RateLimit.After(start, Accepted(calls, n)).History(b);
      && start.History(b) <= h
      && (var times := h[|start.History(b)|..];
          && |times| + Runs.After(calls[..n]).schedule.CountOf(b) + Ranges(calls, n, b) ==
               Runs.After(calls).schedule.CountOf(b)
          && RateLimit.CountWithin(times, from, from + c.windowSeconds) <= c.maxSubmissions
          && RateLimit.CountWithin(times, from, from + c.burstWindowSeconds) <= c.burstMaxSubmissions)
  {
    RunIsLinked(calls, n, c);
    AheadMeaning(calls, n, b);
    RateLimit.NoWindowIsOverfull(Steps(calls[..n]), c, Accepted(calls, n), b, from);
  }
}
