/** The sliding-window rate limiter of the attestation contract
    (contracts/attestation/src/rate_limit.rs).

    The contract keeps, for each business, a pruned list of submission times and a
    high-water mark. The lemmas compare that with the full history of accepted
    submissions, which the contract never stores.
 */
module RateLimit {
  import opened Base

  const MAX_SUBMISSIONS_LIMIT: nat := 100
  const MAX_WINDOW_SECONDS: nat := 31_536_000

  datatype Config = Config(
    maxSubmissions: nat,
    windowSeconds: nat,
    burstMaxSubmissions: nat,
    burstWindowSeconds: nat,
    enabled: bool)
  {
    predicate Valid() {
      && 1 <= burstMaxSubmissions <= maxSubmissions <= MAX_SUBMISSIONS_LIMIT
      && 1 <= burstWindowSeconds <= windowSeconds <= MAX_WINDOW_SECONDS
    }
  }

  datatype Limiter = Limiter(
    config: Option<Config>,
    timestamps: map<Address, seq<nat>>,
    highWater: map<Address, nat>)
  {
    predicate Enforced() {
      config.Some? && config.value.enabled
    }

    /** Only validated configurations are ever stored. */
    predicate Valid() {
      config.Some? ==> config.value.Valid()
    }

    function Stored(b: Address): seq<nat> {
      Get(timestamps, b, [])
    }

    /** The clock of a business never runs backwards. */
    function EffectiveTime(b: Address, now: nat): nat {
      Max(now, Get(highWater, b, now))
    }

    function Cutoff(b: Address, now: nat, window: nat): nat {
      SatSub(EffectiveTime(b, now), window)
    }
  }

  const Empty := Limiter(None, map[], map[])

  /** The entries of `xs` at or after `cutoff`, in order. */
  function Since(xs: seq<nat>, cutoff: nat): seq<nat> {
    if xs == [] then []
    else
      var front, last := xs[..|xs| - 1], xs[|xs| - 1];
      Since(front, cutoff) + if last >= cutoff then [last] else []
  }

  /* ---------- Specification of the operations ---------- */

  function Configure(l: Limiter, c: Config): Option<Limiter> {
    if c.Valid() then Some(l.(config := Some(c))) else None
  }

  /** Checking drops expired entries and aborts when either window is full. */
  function Check(l: Limiter, b: Address, now: nat): Option<Limiter> {
    if !l.Enforced() then Some(l)
    else
      var c := l.config.value;
      var active := Since(l.Stored(b), l.Cutoff(b, now, c.windowSeconds));
      var burst := Since(l.Stored(b), l.Cutoff(b, now, c.burstWindowSeconds));
      if |active| < c.maxSubmissions && |burst| < c.burstMaxSubmissions
      then Some(if active == l.Stored(b) then l else l.(timestamps := l.timestamps[b := active]))
      else None
  }

  function Record(l: Limiter, b: Address, now: nat): Limiter {
    if !l.Enforced() then l
    else
      var at := l.EffectiveTime(b, now);
      var active := Since(l.Stored(b), l.Cutoff(b, now, l.config.value.windowSeconds));
      l.(timestamps := l.timestamps[b := active + [at]], highWater := l.highWater[b := at])
  }

  /** One accepted submission: check first, record after the write. */
  function Admit(l: Limiter, b: Address, now: nat): Option<Limiter> {
    match Check(l, b, now)
    case None => None
    case Some(checked) => Some(Record(checked, b, now))
  }

  /* ---------- Facts about pruning ---------- */

  ghost predicate Sorted(xs: seq<nat>) {
    forall i, j :: 0 <= i <= j < |xs| ==> xs[i] <= xs[j]
  }

  ghost predicate IsSuffix(xs: seq<nat>, ys: seq<nat>) {
    |xs| <= |ys| && xs == ys[|ys| - |xs|..]
  }

  lemma SuffixIsSorted(xs: seq<nat>, ys: seq<nat>)
    requires IsSuffix(xs, ys) && Sorted(ys)
    ensures Sorted(xs)
  {
    forall i, j | 0 <= i <= j < |xs| ensures xs[i] <= xs[j] {
      assert xs[i] == ys[|ys| - |xs| + i] && xs[j] == ys[|ys| - |xs| + j];
    }
  }

  lemma SuffixOfSuffix(xs: seq<nat>, ys: seq<nat>, zs: seq<nat>)
    requires IsSuffix(xs, ys) && IsSuffix(ys, zs)
    ensures IsSuffix(xs, zs)
  {
    forall i | 0 <= i < |xs| ensures xs[i] == zs[|zs| - |xs| + i] {
      assert xs[i] == ys[|ys| - |xs| + i];
    }
  }

  lemma SuffixAppend(xs: seq<nat>, ys: seq<nat>, x: nat)
    requires IsSuffix(xs, ys)
    ensures IsSuffix(xs + [x], ys + [x])
  {
    assert (ys + [x])[|ys| - |xs|..] == ys[|ys| - |xs|..] + [x];
  }

  lemma AppendIsSorted(xs: seq<nat>, x: nat)
    requires Sorted(xs) && (xs == [] || xs[|xs| - 1] <= x)
    ensures Sorted(xs + [x])
  {
    forall i, j | 0 <= i <= j < |xs + [x]| ensures (xs + [x])[i] <= (xs + [x])[j] {
      if i < |xs| {
        assert xs[i] <= xs[|xs| - 1];
      }
    }
  }

  /** Pruning a sorted list keeps exactly a suffix of it. */
  lemma {:induction false} SinceIsSuffix(xs: seq<nat>, cutoff: nat)
    requires Sorted(xs)
    ensures IsSuffix(Since(xs, cutoff), xs)
    ensures forall i :: 0 <= i < |xs| ==> (xs[i] >= cutoff <==> i >= |xs| - |Since(xs, cutoff)|)
  {
    if xs != [] {
      var front, last := xs[..|xs| - 1], xs[|xs| - 1];
      SinceIsSuffix(front, cutoff);
      var k := |front| - |Since(front, cutoff)|;
      if last >= cutoff {
        assert Since(xs, cutoff) == front[k..] + [last] == xs[k..];
      } else {
        assert forall i :: 0 <= i < |front| ==> front[i] <= last;
        assert k == |front|;
        assert Since(xs, cutoff) == xs[|xs|..];
      }
      assert forall i :: 0 <= i < |front| ==> xs[i] == front[i];
    }
  }

  /** Pruning twice is pruning once at the later cutoff. */
  lemma {:induction false} SinceTwice(xs: seq<nat>, early: nat, late: nat)
    requires early <= late
    ensures Since(Since(xs, early), late) == Since(xs, late)
  {
    if xs != [] {
      var front, last := xs[..|xs| - 1], xs[|xs| - 1];
      SinceTwice(front, early, late);
      SinceAppend(Since(front, early), last, late);
      assert Since(front, early) + [] == Since(front, early);
    }
  }

  lemma SinceAppend(xs: seq<nat>, x: nat, cutoff: nat)
    ensures Since(xs + [x], cutoff) == Since(xs, cutoff) + if x >= cutoff then [x] else []
  {
    assert (xs + [x])[..|xs|] == xs;
  }

  lemma CheckEffect(l: Limiter, b: Address, now: nat, checked: Limiter)
    requires l.Enforced() && Check(l, b, now) == Some(checked)
    ensures checked.config == l.config && checked.highWater == l.highWater
    ensures checked.Stored(b) == Since(l.Stored(b), l.Cutoff(b, now, l.config.value.windowSeconds))
    ensures forall other :: other != b ==> checked.Stored(other) == l.Stored(other)
  {
  }

  /** What one accepted submission leaves behind, with the two pruning passes merged. */
  lemma AdmitEffect(l: Limiter, b: Address, now: nat)
    requires l.Enforced() && Admit(l, b, now).Some?
    ensures
      var after, at := Admit(l, b, now).value, l.EffectiveTime(b, now);
      && after.config == l.config
      && after.Stored(b) == Since(l.Stored(b), l.Cutoff(b, now, l.config.value.windowSeconds)) + [at]
      && after.highWater == l.highWater[b := at]
      && (forall other :: other != b ==> after.Stored(other) == l.Stored(other))
  {
    CheckEffect(l, b, now, Check(l, b, now).value);
    var cutoff := l.Cutoff(b, now, l.config.value.windowSeconds);
    SinceTwice(l.Stored(b), cutoff, cutoff);
  }

  /* ---------- Runs, with the full history beside the contract state ---------- */

  datatype Step =
    | Reconfigure(c: Config)
    | Submit(b: Address, now: nat)

  /** `history(b)` lists the effective time of every submission recorded for `b`. */
  datatype Run = Run(limiter: Limiter, history: map<Address, seq<nat>>) {
    function History(b: Address): seq<nat> {
      Get(history, b, [])
    }
  }

  function Next(r: Run, step: Step): Run {
    match step
    case Reconfigure(c) => r.(limiter := Configure(r.limiter, c).GetOr(r.limiter))
    case Submit(b, now) =>
      match Admit(r.limiter, b, now)
      case None => r
      case Some(after) =>
        if r.limiter.Enforced()
        then Run(after, r.history[b := r.History(b) + [r.limiter.EffectiveTime(b, now)]])
        else r.(limiter := after)
  }

  function After(r: Run, steps: seq<Step>): Run {
    if steps == [] then r else Next(After(r, steps[..|steps| - 1]), steps[|steps| - 1])
  }

  const Start := Run(Empty, map[])

  /** What holds for one business whatever was reconfigured on the way: its stored list,
      its high-water mark and its true history agree. */
  ghost predicate BookOk(stored: seq<nat>, highWater: Option<nat>, h: seq<nat>) {
    && Sorted(h)
    && IsSuffix(stored, h)
    && |stored| <= MAX_SUBMISSIONS_LIMIT
    && highWater == (if h == [] then None else Some(h[|h| - 1]))
  }

  ghost predicate BookInv(r: Run, b: Address) {
    BookOk(r.limiter.Stored(b), Lookup(r.limiter.highWater, b), r.History(b))
  }

  ghost predicate Inv(r: Run) {
    r.limiter.Valid() && forall b :: BookInv(r, b)
  }

  lemma RecordKeepsBook(stored: seq<nat>, highWater: Option<nat>, h: seq<nat>, cutoff: nat, at: nat)
    requires BookOk(stored, highWater, h)
    requires at >= highWater.GetOr(0) && |Since(stored, cutoff)| < MAX_SUBMISSIONS_LIMIT
    ensures BookOk(Since(stored, cutoff) + [at], Some(at), h + [at])
  {
    SuffixIsSorted(stored, h);
    SinceIsSuffix(stored, cutoff);
    SuffixOfSuffix(Since(stored, cutoff), stored, h);
    SuffixAppend(Since(stored, cutoff), h, at);
    AppendIsSorted(h, at);
  }

  lemma StepKeepsInv(r: Run, step: Step)
    requires Inv(r)
    ensures Inv(Next(r, step))
  {
    var after := Next(r, step);
    if step.Submit? && r.limiter.Enforced() && Admit(r.limiter, step.b, step.now).Some? {
      AdmitEffect(r.limiter, step.b, step.now);
    }
    forall b ensures BookInv(after, b) {
      assert BookInv(r, b);
      if step.Submit? && r.limiter.Enforced() && Admit(r.limiter, step.b, step.now).Some? && b == step.b {
        RecordKeepsBook(r.limiter.Stored(b), Lookup(r.limiter.highWater, b), r.History(b),
          r.limiter.Cutoff(b, step.now, r.limiter.config.value.windowSeconds),
          r.limiter.EffectiveTime(b, step.now));
      }
    }
  }

  /** In every run, through any configuration changes and any clock: the stored list is
      sorted, never longer than 100, and the most recent part of the true history. */
  lemma {:induction false} StoredIsRecentHistory(steps: seq<Step>, b: Address)
    ensures
      var r := After(Start, steps);
      && r.limiter.Valid()
      && Sorted(r.limiter.Stored(b))
      && |r.limiter.Stored(b)| <= MAX_SUBMISSIONS_LIMIT
      && IsSuffix(r.limiter.Stored(b), r.History(b))
  {
    ReachableInv(steps);
    assert BookInv(After(Start, steps), b);
  }

  lemma {:induction false} ReachableInv(steps: seq<Step>)
    ensures Inv(After(Start, steps))
  {
    if steps != [] {
      ReachableInv(steps[..|steps| - 1]);
      StepKeepsInv(After(Start, steps[..|steps| - 1]), steps[|steps| - 1]);
    }
  }

  /* ---------- The clock of a business ---------- */

  /** An admitted submission is recorded at the ledger time or at the latest time recorded so
      far, whichever is later. */
  lemma RecordedAtTheLatestTime(l: Limiter, b: Address, now: nat)
    requires l.Enforced() && Admit(l, b, now).Some?
    ensures
      var stored, latest := Admit(l, b, now).value.Stored(b), Max(now, Get(l.highWater, b, 0));
      && stored != [] && stored[|stored| - 1] == latest
      && Lookup(Admit(l, b, now).value.highWater, b) == Some(latest)
  {
    AdmitEffect(l, b, now);
  }

  /** The ledger times of the submissions of `b` that were recorded. */
  function LedgerTimes(steps: seq<Step>, b: Address): seq<nat> {
    if steps == [] then []
    else
      var r, last := After(Start, steps[..|steps| - 1]), steps[|steps| - 1];
      LedgerTimes(steps[..|steps| - 1], b)
      + if last.Submit? && last.b == b && r.limiter.Enforced() && Admit(r.limiter, b, last.now).Some? then [last.now]
        else []
  }

  ghost predicate IsLargest(x: nat, xs: seq<nat>) {
    x in xs && forall i :: 0 <= i < |xs| ==> xs[i] <= x
  }

  ghost predicate RunningMaxima(h: seq<nat>, times: seq<nat>) {
    && |h| == |times|
    && forall i :: 0 <= i < |h| ==> IsLargest(h[i], times[..i + 1])
  }

  lemma NextMaximum(h: seq<nat>, times: seq<nat>, now: nat)
    requires RunningMaxima(h, times)
    ensures RunningMaxima(h + [if h == [] then now else Max(now, h[|h| - 1])], times + [now])
  {
    var latest := if h == [] then now else Max(now, h[|h| - 1]);
    var hs, ts := h + [latest], times + [now];
    forall i | 0 <= i < |hs| ensures IsLargest(hs[i], ts[..i + 1]) {
      if i < |h| {
        assert ts[..i + 1] == times[..i + 1];
      } else {
        assert ts[..i + 1] == ts && times[..|h|] == times;
        assert h != [] ==> IsLargest(h[|h| - 1], times[..|h|]);
        assert ts[|times|] == now;
      }
    }
  }

  /** In every run each entry of a history is the largest ledger time among the submissions of
      the business recorded so far. */
  lemma {:induction false} HistoryIsRunningMaximum(steps: seq<Step>, b: Address)
    ensures RunningMaxima(After(Start, steps).History(b), LedgerTimes(steps, b))
  {
    if steps != [] {
      var front, last := steps[..|steps| - 1], steps[|steps| - 1];
      HistoryIsRunningMaximum(front, b);
      var r := After(Start, front);
      if last.Submit? && last.b == b && r.limiter.Enforced() && Admit(r.limiter, b, last.now).Some? {
        ReachableInv(front);
        assert BookInv(r, b);
        NextMaximum(r.History(b), LedgerTimes(front, b), last.now);
      } else {
        assert LedgerTimes(steps, b) == LedgerTimes(front, b);
        assert After(Start, steps).History(b) == r.History(b);
      }
    }
  }

  /** A business that has been quiet for more than a window is admitted, whatever its past. */
  lemma IdleBusinessIsAdmitted(steps: seq<Step>, b: Address, now: nat)
    requires After(Start, steps).limiter.Enforced()
    requires
      var h := After(Start, steps).History(b);
      h == [] || now > h[|h| - 1] + After(Start, steps).limiter.config.value.windowSeconds
    ensures Admit(After(Start, steps).limiter, b, now).Some?
  {
    ReachableInv(steps);
    var r := After(Start, steps);
    assert BookInv(r, b);
    var stored, c := r.limiter.Stored(b), r.limiter.config.value;
    SuffixIsSorted(stored, r.History(b));
    SinceIsSuffix(stored, SatSub(now, c.windowSeconds));
    SinceIsSuffix(stored, SatSub(now, c.burstWindowSeconds));
    assert stored != [] ==> stored[|stored| - 1] == r.History(b)[|r.History(b)| - 1];
    assert Since(stored, SatSub(now, c.windowSeconds)) == [];
    assert Since(stored, SatSub(now, c.burstWindowSeconds)) == [];
  }

  /* ---------- A fixed, enabled configuration ---------- */

  /** Nothing but what the window has passed is missing from the stored list. */
  ghost predicate FixedBookOk(c: Config, stored: seq<nat>, h: seq<nat>) {
    stored == (if h == [] then [] else Since(h, SatSub(h[|h| - 1], c.windowSeconds)))
  }

  ghost predicate FixedBookInv(r: Run, c: Config, b: Address) {
    FixedBookOk(c, r.limiter.Stored(b), r.History(b))
  }

  ghost predicate FixedInv(r: Run, c: Config) {
    && Inv(r)
    && c.enabled
    && r.limiter.config == Some(c)
    && forall b :: FixedBookInv(r, c, b)
  }

  /** The pruned list answers both window queries exactly as the full history would. */
  lemma PrunedCountsAreExact(r: Run, c: Config, b: Address, now: nat, window: nat)
    requires FixedInv(r, c) && window <= c.windowSeconds
    ensures Since(r.limiter.Stored(b), r.limiter.Cutoff(b, now, window))
         == Since(r.History(b), r.limiter.Cutoff(b, now, window))
  {
    assert BookInv(r, b) && FixedBookInv(r, c, b);
    var h := r.History(b);
    if h != [] {
      SinceTwice(h, SatSub(h[|h| - 1], c.windowSeconds), r.limiter.Cutoff(b, now, window));
    }
  }

  lemma RecordKeepsFixedBook(c: Config, stored: seq<nat>, h: seq<nat>, at: nat)
    requires FixedBookOk(c, stored, h)
    requires Since(stored, SatSub(at, c.windowSeconds)) == Since(h, SatSub(at, c.windowSeconds))
    ensures FixedBookOk(c, Since(stored, SatSub(at, c.windowSeconds)) + [at], h + [at])
  {
    SinceAppend(h, at, SatSub(at, c.windowSeconds));
  }

  lemma NextBook(r: Run, b: Address, now: nat)
    requires r.limiter.Enforced() && Admit(r.limiter, b, now).Some?
    ensures
      var next, at := Next(r, Submit(b, now)), r.limiter.EffectiveTime(b, now);
      && next.History(b) == r.History(b) + [at]
      && next.limiter.Stored(b) ==
           Since(r.limiter.Stored(b), r.limiter.Cutoff(b, now, r.limiter.config.value.windowSeconds)) + [at]
  {
    AdmitEffect(r.limiter, b, now);
  }

  lemma SubmitKeepsFixedBook(r: Run, c: Config, b: Address, now: nat)
    requires FixedInv(r, c) && Admit(r.limiter, b, now).Some?
    ensures FixedBookInv(Next(r, Submit(b, now)), c, b)
  {
    var stored, h, at := r.limiter.Stored(b), r.History(b), r.limiter.EffectiveTime(b, now);
    assert BookInv(r, b) && FixedBookInv(r, c, b);
    PrunedCountsAreExact(r, c, b, now, c.windowSeconds);
    RecordKeepsFixedBook(c, stored, h, at);
    NextBook(r, b, now);
  }

  lemma SubmitKeepsFixedInv(r: Run, c: Config, b: Address, now: nat)
    requires FixedInv(r, c)
    ensures FixedInv(Next(r, Submit(b, now)), c)
  {
    StepKeepsInv(r, Submit(b, now));
    if Admit(r.limiter, b, now).Some? {
      AdmitEffect(r.limiter, b, now);
      forall x ensures FixedBookInv(Next(r, Submit(b, now)), c, x) {
        if x == b {
          SubmitKeepsFixedBook(r, c, b, now);
        } else {
          assert FixedBookInv(r, c, x);
        }
      }
    }
  }

  /** Attempts by any business at any ledger time; the clock may jump either way. */
  ghost predicate OnlySubmits(steps: seq<Step>) {
    forall i :: 0 <= i < |steps| ==> steps[i].Submit?
  }

  function Configured(c: Config): Run {
    Run(Empty.(config := Some(c)), map[])
  }

  lemma {:induction false} FixedConfigInv(c: Config, steps: seq<Step>)
    requires c.Valid() && c.enabled && OnlySubmits(steps)
    ensures FixedInv(After(Configured(c), steps), c)
  {
    if steps != [] {
      FixedConfigInv(c, steps[..|steps| - 1]);
      var last := steps[|steps| - 1];
      SubmitKeepsFixedInv(After(Configured(c), steps[..|steps| - 1]), c, last.b, last.now);
    }
  }

  /** Both directions at one attempt: it is admitted exactly when neither true window,
      counted over the full history, is already at its limit. */
  lemma AdmittedIffWindowsHaveRoom(c: Config, steps: seq<Step>, b: Address, now: nat)
    requires c.Valid() && c.enabled && OnlySubmits(steps)
    ensures
      var r, h := After(Configured(c), steps), After(Configured(c), steps).History(b);
      var at := if h == [] then now else Max(now, h[|h| - 1]);
      Admit(r.limiter, b, now).Some? <==>
      && |Since(h, SatSub(at, c.windowSeconds))| < c.maxSubmissions
      && |Since(h, SatSub(at, c.burstWindowSeconds))| < c.burstMaxSubmissions
  {
    FixedConfigInv(c, steps);
    var r := After(Configured(c), steps);
    assert BookInv(r, b);
    PrunedCountsAreExact(r, c, b, now, c.windowSeconds);
    PrunedCountsAreExact(r, c, b, now, c.burstWindowSeconds);
  }

  /* ---------- No window is overfull, whatever was configured before ---------- */

  /** Any `n + 1` consecutive entries span more than `w` seconds. */
  ghost predicate Spaced(xs: seq<nat>, n: nat, w: nat) {
    forall i :: 0 <= i && i + n < |xs| ==> xs[i + n] - xs[i] > w
  }

  lemma AppendStaysSpaced(h: seq<nat>, at: nat, n: nat, w: nat)
    requires Sorted(h + [at]) && Spaced(h, n, w) && n >= 1
    requires |Since(h, SatSub(at, w))| < n
    ensures Spaced(h + [at], n, w)
  {
    assert Sorted(h) by {
      assert forall i :: 0 <= i < |h| ==> h[i] == (h + [at])[i];
    }
    SinceIsSuffix(h, SatSub(at, w));
    var xs := h + [at];
    forall i | 0 <= i && i + n < |xs| ensures xs[i + n] - xs[i] > w {
      if i + n < |h| {
        assert h[i + n] - h[i] > w;
      } else {
        assert h[i] < SatSub(at, w);
      }
    }
  }

  /** How many entries of `xs` lie in the closed window from `from` to `to`. */
  function CountWithin(xs: seq<nat>, from: nat, to: nat): nat {
    if xs == [] then 0
    else CountWithin(xs[..|xs| - 1], from, to) + if from <= xs[|xs| - 1] <= to then 1 else 0
  }

  lemma {:induction false} CountWithinMeaning(xs: seq<nat>, from: nat, to: nat)
    ensures CountWithin(xs, from, to) == |set i | 0 <= i < |xs| && from <= xs[i] <= to|
  {
    var here := set i | 0 <= i < |xs| && from <= xs[i] <= to;
    if xs != [] {
      var front, last := xs[..|xs| - 1], |xs| - 1;
      CountWithinMeaning(front, from, to);
      var before := set i | 0 <= i < |front| && from <= front[i] <= to;
      assert here == if from <= xs[last] <= to then before + {last} else before;
    } else {
      assert here == {};
    }
  }

  lemma {:induction false} CountWithinAtMostSince(xs: seq<nat>, from: nat, to: nat)
    ensures CountWithin(xs, from, to) <= |Since(xs, from)|
  {
    if xs != [] {
      CountWithinAtMostSince(xs[..|xs| - 1], from, to);
    }
  }

  lemma {:induction false} SpacedBoundsEveryWindow(xs: seq<nat>, n: nat, w: nat, from: nat)
    requires Sorted(xs) && Spaced(xs, n, w) && n >= 1
    ensures CountWithin(xs, from, from + w) <= n
  {
    if xs != [] {
      var last := |xs| - 1;
      if from <= xs[last] <= from + w {
        CountWithinAtMostSince(xs, from, from + w);
        SinceIsSuffix(xs, from);
        if last >= n {
          assert xs[(last - n) + n] - xs[last - n] > w;
        }
      } else {
        assert Sorted(xs[..last]) && Spaced(xs[..last], n, w);
        SpacedBoundsEveryWindow(xs[..last], n, w, from);
      }
    }
  }

  /** Of the entries from position `n` on, those that the window has not passed are stored. */
  ghost predicate StillStored(w: nat, stored: seq<nat>, h: seq<nat>, n: nat) {
    forall i :: n <= i < |h| && h[i] >= SatSub(h[|h| - 1], w) ==> i >= |h| - |stored|
  }

  /** The entries from position `n` on are spaced, and stored as long as they matter. */
  ghost predicate RecentOk(c: Config, stored: seq<nat>, h: seq<nat>, n: nat) {
    && n <= |h|
    && Spaced(h[n..], c.maxSubmissions, c.windowSeconds)
    && Spaced(h[n..], c.burstMaxSubmissions, c.burstWindowSeconds)
    && StillStored(c.windowSeconds, stored, h, n)
  }

  /** So every recent entry that counts against a limit is among the stored ones. */
  lemma RecentAreCounted(stored: seq<nat>, h: seq<nat>, n: nat, w: nat, cutoff: nat)
    requires Sorted(h) && IsSuffix(stored, h) && n <= |h| && StillStored(w, stored, h, n)
    requires h != [] ==> cutoff >= SatSub(h[|h| - 1], w)
    ensures |Since(h[n..], cutoff)| <= |Since(stored, cutoff)|
  {
    SuffixIsSorted(stored, h);
    SuffixIsSorted(h[n..], h);
    SinceIsSuffix(stored, cutoff);
    SinceIsSuffix(h[n..], cutoff);
    var k := |Since(h[n..], cutoff)|;
    if k > 0 {
      var i := |h| - k;
      assert h[n..][i - n] == h[i] >= cutoff;
      assert stored[i - (|h| - |stored|)] == h[i];
    }
  }

  lemma FrontIsSorted(h: seq<nat>, at: nat)
    requires Sorted(h + [at])
    ensures Sorted(h) && (h != [] ==> h[|h| - 1] <= at)
  {
    assert (h + [at])[|h|] == at;
    assert forall i :: 0 <= i < |h| ==> h[i] == (h + [at])[i];
  }

  lemma RecordKeepsStored(stored: seq<nat>, h: seq<nat>, n: nat, w: nat, at: nat)
    requires Sorted(h + [at]) && IsSuffix(stored, h) && StillStored(w, stored, h, n)
    ensures StillStored(w, Since(stored, SatSub(at, w)) + [at], h + [at], n)
  {
    var next, cutoff := h + [at], SatSub(at, w);
    var kept := Since(stored, cutoff);
    FrontIsSorted(h, at);
    SuffixIsSorted(stored, h);
    SinceIsSuffix(stored, cutoff);
    forall i | n <= i < |next| && next[i] >= cutoff ensures i >= |next| - |kept + [at]| {
      if i < |h| {
        assert h[|h| - 1] == next[|h| - 1] <= next[|h|] && next[i] == h[i];
        assert stored[i - (|h| - |stored|)] == h[i];
      }
    }
  }

  lemma TailIsSorted(h: seq<nat>, at: nat, n: nat)
    requires Sorted(h + [at]) && n <= |h|
    ensures (h + [at])[n..] == h[n..] + [at] && Sorted(h[n..] + [at])
  {
    assert (h + [at])[n..] == h[n..] + [at];
    SuffixIsSorted((h + [at])[n..], h + [at]);
  }

  /** Admission keeps the recent entries spaced for each of the two windows. */
  lemma RecordKeepsSpacing(stored: seq<nat>, h: seq<nat>, n: nat, w: nat, at: nat, limit: nat, window: nat)
    requires Sorted(h + [at]) && IsSuffix(stored, h) && n <= |h| && StillStored(w, stored, h, n)
    requires window <= w && limit >= 1 && Spaced(h[n..], limit, window) && |Since(stored, SatSub(at, window))| < limit
    ensures Spaced((h + [at])[n..], limit, window)
  {
    FrontIsSorted(h, at);
    TailIsSorted(h, at, n);
    RecentAreCounted(stored, h, n, w, SatSub(at, window));
    AppendStaysSpaced(h[n..], at, limit, window);
  }

  lemma RecordKeepsRecent(c: Config, stored: seq<nat>, h: seq<nat>, n: nat, at: nat)
    requires c.Valid() && Sorted(h + [at]) && IsSuffix(stored, h) && RecentOk(c, stored, h, n)
    requires |Since(stored, SatSub(at, c.windowSeconds))| < c.maxSubmissions
    requires |Since(stored, SatSub(at, c.burstWindowSeconds))| < c.burstMaxSubmissions
    ensures RecentOk(c, Since(stored, SatSub(at, c.windowSeconds)) + [at], h + [at], n)
  {
    RecordKeepsSpacing(stored, h, n, c.windowSeconds, at, c.maxSubmissions, c.windowSeconds);
    RecordKeepsSpacing(stored, h, n, c.windowSeconds, at, c.burstMaxSubmissions, c.burstWindowSeconds);
    RecordKeepsStored(stored, h, n, c.windowSeconds, at);
  }

  lemma AdmitHadRoom(l: Limiter, b: Address, now: nat)
    requires l.Enforced() && Admit(l, b, now).Some?
    ensures |Since(l.Stored(b), l.Cutoff(b, now, l.config.value.windowSeconds))| < l.config.value.maxSubmissions
    ensures |Since(l.Stored(b), l.Cutoff(b, now, l.config.value.burstWindowSeconds))|
              < l.config.value.burstMaxSubmissions
  {
  }

  lemma SubmitKeepsRecent(r: Run, c: Config, b: Address, n: nat, step: Step)
    requires Inv(r) && c.enabled && r.limiter.config == Some(c) && step.Submit?
    requires RecentOk(c, r.limiter.Stored(b), r.History(b), n)
    ensures RecentOk(c, Next(r, step).limiter.Stored(b), Next(r, step).History(b), n)
    ensures Next(r, step).limiter.config == Some(c) && r.History(b) <= Next(r, step).History(b)
  {
    if Admit(r.limiter, step.b, step.now).Some? {
      AdmitEffect(r.limiter, step.b, step.now);
      if step.b == b {
        assert BookInv(r, b);
        AdmitHadRoom(r.limiter, b, step.now);
        AppendIsSorted(r.History(b), r.limiter.EffectiveTime(b, step.now));
        RecordKeepsRecent(c, r.limiter.Stored(b), r.History(b), n, r.limiter.EffectiveTime(b, step.now));
        NextBook(r, b, step.now);
      }
    }
  }

  lemma {:induction false} SubmitsKeepRecent(start: Run, c: Config, post: seq<Step>, b: Address)
    requires Inv(start) && c.enabled && start.limiter.config == Some(c) && OnlySubmits(post)
    ensures
      var r := After(start, post);
      && Inv(r) && r.limiter.config == Some(c) && start.History(b) <= r.History(b)
      && RecentOk(c, r.limiter.Stored(b), r.History(b), |start.History(b)|)
  {
    if post == [] {
      assert start.History(b)[|start.History(b)|..] == [];
    } else {
      var front := post[..|post| - 1];
      SubmitsKeepRecent(start, c, front, b);
      StepKeepsInv(After(start, front), post[|post| - 1]);
      SubmitKeepsRecent(After(start, front), c, b, |start.History(b)|, post[|post| - 1]);
    }
  }

  lemma RecentFillsNoWindow(c: Config, stored: seq<nat>, h: seq<nat>, n: nat, from: nat)
    requires c.Valid() && Sorted(h) && RecentOk(c, stored, h, n)
    ensures CountWithin(h[n..], from, from + c.windowSeconds) <= c.maxSubmissions
    ensures CountWithin(h[n..], from, from + c.burstWindowSeconds) <= c.burstMaxSubmissions
  {
    SuffixIsSorted(h[n..], h);
    SpacedBoundsEveryWindow(h[n..], c.maxSubmissions, c.windowSeconds, from);
    SpacedBoundsEveryWindow(h[n..], c.burstMaxSubmissions, c.burstWindowSeconds, from);
  }

  lemma ConfiguredNow(pre: seq<Step>, c: Config)
    requires c.Valid()
    ensures
      var start := After(Start, pre + [Reconfigure(c)]);
      Inv(start) && start.limiter.config == Some(c)
  {
    ReachableInv(pre + [Reconfigure(c)]);
    assert (pre + [Reconfigure(c)])[..|pre|] == pre;
  }

  /** From the moment a configuration is set, whatever was configured, submitted and pruned
      before, and until the next one, no closed window, placed anywhere, ever holds more
      recorded submissions than allowed, whatever the ledger clock did. */
  lemma NoWindowIsOverfull(pre: seq<Step>, c: Config, post: seq<Step>, b: Address, from: nat)
    requires c.Valid() && c.enabled && OnlySubmits(post)
    ensures
      var start := After(Start, pre + [Reconfigure(c)]);
      var h := After(start, post).History(b);
      && start.History(b) <= h
      && CountWithin(h[|start.History(b)|..], from, from + c.windowSeconds) <= c.maxSubmissions
      && CountWithin(h[|start.History(b)|..], from, from + c.burstWindowSeconds) <= c.burstMaxSubmissions
  {
    ConfiguredNow(pre, c);
    var start := After(Start, pre + [Reconfigure(c)]);
    SubmitsKeepRecent(start, c, post, b);
    var r := After(start, post);
    assert BookInv(r, b);
    RecentFillsNoWindow(c, r.limiter.Stored(b), r.History(b), |start.History(b)|, from);
  }

  /* ---------- The contract's storage and entry points ---------- */

  class RateLimiter {
    var config: Option<Config>
    var timestamps: map<Address, seq<nat>>
    var highWater: map<Address, nat>

    function Model(): Limiter
      reads this
    {
      Limiter(config, timestamps, highWater)
    }

    constructor ()
      ensures Model() == Empty
    {
      config, timestamps, highWater := None, map[], map[];
    }

    /** Brings back the storage of an aborted transaction. */
    method Restore(to: Limiter)
      modifies this
      ensures Model() == to
    {
      config, timestamps, highWater := to.config, to.timestamps, to.highWater;
    }

    method SetConfig(c: Config) returns (ok: bool)
      modifies this
      ensures Tx(ok, Configure(old(Model()), c), old(Model()), Model())
      ensures ok <==>
                && 1 <= c.burstMaxSubmissions && c.burstMaxSubmissions <= c.maxSubmissions && c.maxSubmissions <= 100
                && 1 <= c.burstWindowSeconds && c.burstWindowSeconds <= c.windowSeconds
                && c.windowSeconds <= 365 * 24 * 60 * 60
    {
      ok := c.Valid();
      if ok {
        config := Some(c);
      }
    }

    /** One pass over the stored list: prunes it and counts both windows. */
    method AnalyzeSubmissionWindows(c: Config, b: Address, now: nat)
      returns (active: seq<nat>, originalLen: nat, windowCount: nat, burstCount: nat)
      requires c.Valid()
      ensures active == Since(Model().Stored(b), SatSub(Max(now, Get(highWater, b, now)), c.windowSeconds))
      ensures originalLen == |Model().Stored(b)|
      ensures windowCount == |active| <= originalLen
      ensures burstCount ==
                |Since(Model().Stored(b), SatSub(Max(now, Get(highWater, b, now)), c.burstWindowSeconds))|
      ensures windowCount == originalLen ==> active == Model().Stored(b)
    {
      var at := Max(now, Get(highWater, b, now));
      var cutoff, burstCutoff := SatSub(at, c.windowSeconds), SatSub(at, c.burstWindowSeconds);
      var stored := Get(timestamps, b, []);
      originalLen := |stored|;
      active, windowCount, burstCount := [], 0, 0;
      for i := 0 to |stored|
        invariant active == Since(stored[..i], cutoff)
        invariant windowCount == |active| <= i
        invariant windowCount == i ==> active == stored[..i]
        invariant burstCount == |Since(stored[..i], burstCutoff)|
      {
        assert stored[..i + 1][..i] == stored[..i];
        if stored[i] >= cutoff {
          active := active + [stored[i]];
          windowCount := windowCount + 1;
          if stored[i] >= burstCutoff {
            burstCount := burstCount + 1;
          }
        }
      }
      assert stored[..|stored|] == stored;
    }

    method CheckRateLimit(b: Address, now: nat) returns (ok: bool)
      requires Model().Valid()
      modifies this`timestamps
      ensures Tx(ok, Check(old(Model()), b, now), old(Model()), Model())
    {
      if config.None? || !config.value.enabled {
        return true;
      }
      var before := timestamps;
      var active, originalLen, windowCount, burstCount := AnalyzeSubmissionWindows(config.value, b, now);
      if |active| != originalLen {
        timestamps := timestamps[b := active];
      }
      ok := windowCount < config.value.maxSubmissions && burstCount < config.value.burstMaxSubmissions;
      if !ok {
        timestamps := before;
      }
    }

    method RecordSubmission(b: Address, now: nat)
      requires Model().Valid()
      modifies this`timestamps, this`highWater
      ensures Model() == Record(old(Model()), b, now)
      ensures Model().Enforced() ==> Lookup(highWater, b) == Some(Max(now, Get(old(highWater), b, 0)))
    {
      if config.Some? && config.value.enabled {
        var at := Max(now, Get(highWater, b, now));
        var active, _, _, _ := AnalyzeSubmissionWindows(config.value, b, now);
        timestamps := timestamps[b := active + [at]];
        highWater := highWater[b := at];
      }
    }

    method GetSubmissionCount(b: Address, now: nat) returns (count: nat)
      requires Model().Valid()
      ensures count == if Model().Enforced()
                       then |Since(Model().Stored(b), Model().Cutoff(b, now, config.value.windowSeconds))| else 0
    {
      if config.None? || !config.value.enabled {
        return 0;
      }
      var _, _, windowCount, _ := AnalyzeSubmissionWindows(config.value, b, now);
      return windowCount;
    }

    method GetBurstSubmissionCount(b: Address, now: nat) returns (count: nat)
      requires Model().Valid()
      ensures count == if Model().Enforced()
                       then |Since(Model().Stored(b), Model().Cutoff(b, now, config.value.burstWindowSeconds))| else 0
    {
      if config.None? || !config.value.enabled {
        return 0;
      }
      var _, _, _, burstCount := AnalyzeSubmissionWindows(config.value, b, now);
      return burstCount;
    }
  }
}
