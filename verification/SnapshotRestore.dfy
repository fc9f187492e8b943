/** Two-phase restore of the snapshot contract (contracts/attestation-snapshot/src/lib.rs):
    a dry run checks a batch and leaves a token, a commit consumes the token and writes.

    The batch fingerprint (SHA-256 over encoded business, period and schema version) is a
    parameter; results that need it to be collision-free say so. The small association lists
    the contract scans are maps here.
 */
module SnapshotRestore {
  import opened Base
  import opened Snapshots

  const SNAPSHOT_SCHEMA_VERSION: nat := 1
  const MAX_RESTORE_BATCH: nat := 1024
  const RESTORE_COMMIT_WINDOW_LEDGERS: nat := 1_440

  datatype Entry = Entry(
    business: Address,
    period: Period,
    record: SnapshotRecord,
    schemaVersion: nat,
    businessCount: nat)
  {
    function KeyOf(): Key {
      Key(business, period)
    }
  }

  datatype Stamp = Stamp(key: Key, schemaVersion: nat)

  type Fingerprint = seq<Stamp> -> Hash

  /** The part of a batch that the fingerprint covers. */
  function Stamps(entries: seq<Entry>): (s: seq<Stamp>)
    ensures |s| == |entries|
    ensures forall i :: 0 <= i < |s| ==> s[i] == Stamp(entries[i].KeyOf(), entries[i].schemaVersion)
  {
    seq(|entries|, i requires 0 <= i < |entries| => Stamp(entries[i].KeyOf(), entries[i].schemaVersion))
  }

  ghost predicate CollisionFree(fp: Fingerprint) {
    forall x, y :: fp(x) == fp(y) ==> x == y
  }

  /* ---------- The dry run ---------- */

  datatype Reason = PeriodTooLong | FromTheFuture | DuplicateKey | GoesBackwards

  datatype Violation = Violation(index: nat, reason: Reason)

  /** What the scan remembers: accepted keys, last time per business, violations so far. */
  datatype Scan = Scan(seen: set<Key>, last: map<Address, nat>, violations: seq<Violation>)

  function ScanEntry(s: Scan, e: Entry, index: nat, now: nat): Scan {
    if |e.period| > MAX_PERIOD_BYTES then s.(violations := s.violations + [Violation(index, PeriodTooLong)])
    else if e.record.recordedAt > now then s.(violations := s.violations + [Violation(index, FromTheFuture)])
    else if e.KeyOf() in s.seen then s.(violations := s.violations + [Violation(index, DuplicateKey)])
    else if e.business in s.last && e.record.recordedAt < s.last[e.business]
    then Scan(s.seen + {e.KeyOf()}, s.last, s.violations + [Violation(index, GoesBackwards)])
    else Scan(s.seen + {e.KeyOf()}, s.last[e.business := e.record.recordedAt], s.violations)
  }

  function ScanAll(entries: seq<Entry>, now: nat): Scan {
    if entries == [] then Scan({}, map[], [])
    else ScanEntry(ScanAll(entries[..|entries| - 1], now), entries[|entries| - 1], |entries| - 1, now)
  }

  datatype Report = Report(checked: nat, valid: nat, violations: seq<Violation>, ready: bool, deadline: nat)

  predicate SchemaOk(entries: seq<Entry>) {
    forall i :: 0 <= i < |entries| ==> entries[i].schemaVersion == SNAPSHOT_SCHEMA_VERSION
  }

  /** Aborts on an oversized batch, a foreign schema version, or a deadline that overflows. */
  function DryRun(a: Archive, fp: Fingerprint, caller: Address, entries: seq<Entry>, now: nat, ledger: nat)
    : Option<(Archive, Report)>
  {
    var violations := ScanAll(entries, now).violations;
    if |entries| > MAX_RESTORE_BATCH || !SchemaOk(entries) then None
    else if violations != [] then
      Some((a, Report(|entries|, SatSub(|entries|, |violations|), violations, false, 0)))
    else if ledger + RESTORE_COMMIT_WINDOW_LEDGERS > U32_MAX then None
    else
      var deadline := ledger + RESTORE_COMMIT_WINDOW_LEDGERS;
      Some((a.(pending := a.pending[caller := Token(fp(Stamps(entries)), deadline)]),
            Report(|entries|, |entries|, [], true, deadline)))
  }

  /** Entry `n` is in order given the ones before it. */
  ghost predicate EntryClean(entries: seq<Entry>, n: nat, now: nat)
    requires n < |entries|
  {
    && |entries[n].period| <= MAX_PERIOD_BYTES
    && entries[n].record.recordedAt <= now
    && (forall i :: 0 <= i < n ==> entries[i].KeyOf() != entries[n].KeyOf())
    && (forall i :: 0 <= i < n && entries[i].business == entries[n].business
                    ==> entries[i].record.recordedAt <= entries[n].record.recordedAt)
  }

  /** What a clean batch is, said about the batch itself: periods fit, nothing is from the
      future, keys are pairwise distinct, and no business goes back in time. */
  ghost predicate Clean(entries: seq<Entry>, now: nat) {
    forall n :: 0 <= n < |entries| ==> EntryClean(entries, n, now)
  }

  function Keys(entries: seq<Entry>): set<Key> {
    set e | e in entries :: e.KeyOf()
  }

  function LastTimes(entries: seq<Entry>): map<Address, nat> {
    if entries == [] then map[]
    else LastTimes(entries[..|entries| - 1])[
      entries[|entries| - 1].business := entries[|entries| - 1].record.recordedAt]
  }

  lemma {:induction false} LastTimesMeaning(entries: seq<Entry>, b: Address)
    ensures b !in LastTimes(entries) ==> forall i :: 0 <= i < |entries| ==> entries[i].business != b
    ensures b in LastTimes(entries) ==>
              exists i :: 0 <= i < |entries| && entries[i].business == b
                          && entries[i].record.recordedAt == LastTimes(entries)[b]
  {
    if entries != [] {
      var front, e := entries[..|entries| - 1], entries[|entries| - 1];
      LastTimesMeaning(front, b);
      if e.business == b {
        assert entries[|entries| - 1].business == b;
      } else if b in LastTimes(front) {
        var i :| 0 <= i < |front| && front[i].business == b && front[i].record.recordedAt == LastTimes(front)[b];
        assert entries[i].business == b;
      }
    }
  }

  lemma {:induction false} LastTimesAreLatest(entries: seq<Entry>, now: nat, i: nat)
    requires Clean(entries, now) && i < |entries|
    ensures entries[i].business in LastTimes(entries)
    ensures entries[i].record.recordedAt <= LastTimes(entries)[entries[i].business]
  {
    var front, e := entries[..|entries| - 1], entries[|entries| - 1];
    assert EntryClean(entries, |entries| - 1, now);
    if i < |front| {
      CleanSplits(front, e, now);
      assert front + [e] == entries;
      LastTimesAreLatest(front, now, i);
    }
  }

  lemma CleanSplits(front: seq<Entry>, e: Entry, now: nat)
    ensures Clean(front + [e], now) <==> Clean(front, now) && EntryClean(front + [e], |front|, now)
  {
    var all := front + [e];
    forall n | 0 <= n < |front| ensures EntryClean(all, n, now) <==> EntryClean(front, n, now) {
      assert forall i :: 0 <= i <= n ==> all[i] == front[i];
    }
  }

  /** One scan step finds fault exactly when the entry is out of order. */
  lemma ScanStepIsExact(front: seq<Entry>, e: Entry, now: nat)
    requires Clean(front, now)
    ensures ScanEntry(Scan(Keys(front), LastTimes(front), []), e, |front|, now).violations == []
        <==> EntryClean(front + [e], |front|, now)
  {
    var all, s := front + [e], Scan(Keys(front), LastTimes(front), []);
    assert forall i :: 0 <= i < |front| ==> all[i] == front[i] && front[i].KeyOf() in s.seen;
    LastTimesMeaning(front, e.business);
    forall i | 0 <= i < |front| && front[i].business == e.business
      ensures e.business in s.last && front[i].record.recordedAt <= s.last[e.business] {
      LastTimesAreLatest(front, now, i);
    }
  }

  /** The report is empty exactly on clean batches. */
  lemma {:induction false} ScanFindsExactlyTheUnclean(entries: seq<Entry>, now: nat)
    ensures ScanAll(entries, now).violations == [] <==> Clean(entries, now)
    ensures Clean(entries, now) ==> ScanAll(entries, now) == Scan(Keys(entries), LastTimes(entries), [])
  {
    if entries != [] {
      var front, e := entries[..|entries| - 1], entries[|entries| - 1];
      ScanFindsExactlyTheUnclean(front, now);
      CleanSplits(front, e, now);
      assert front + [e] == entries;
      if Clean(front, now) {
        ScanStepIsExact(front, e, now);
        assert Keys(entries) == Keys(front) + {e.KeyOf()};
      }
    }
  }

  /* ---------- What the report says ---------- */

  predicate Plausible(e: Entry, now: nat) {
    |e.period| <= MAX_PERIOD_BYTES && e.record.recordedAt <= now
  }

  ghost predicate RepeatsKey(entries: seq<Entry>, n: nat, now: nat)
    requires n < |entries|
  {
    exists i :: 0 <= i < n && Plausible(entries[i], now) && entries[i].KeyOf() == entries[n].KeyOf()
  }

  /** What is wrong with entry `n`, said about the batch itself. It goes back in time when an
      earlier entry of its business, with which nothing is wrong, is later. */
  ghost function Fault(entries: seq<Entry>, n: nat, now: nat): Option<Reason>
    requires n < |entries|
    decreases n
  {
    if |entries[n].period| > MAX_PERIOD_BYTES then Some(PeriodTooLong)
    else if entries[n].record.recordedAt > now then Some(FromTheFuture)
    else if RepeatsKey(entries, n, now) then Some(DuplicateKey)
    else if exists i :: 0 <= i < n && Fault(entries, i, now).None? && entries[i].business == entries[n].business
                        && entries[i].record.recordedAt > entries[n].record.recordedAt then Some(GoesBackwards)
    else None
  }

  ghost function Faults(entries: seq<Entry>, m: nat, now: nat): seq<Violation>
    requires m <= |entries|
  {
    if m == 0 then []
    else
      var fault := Fault(entries, m - 1, now);
      Faults(entries, m - 1, now) + if fault.Some? then [Violation(m - 1, fault.value)] else []
  }

  ghost predicate SeenOk(entries: seq<Entry>, m: nat, now: nat, seen: set<Key>)
    requires m <= |entries|
  {
    forall k :: k in seen <==> exists i :: 0 <= i < m && Plausible(entries[i], now) && entries[i].KeyOf() == k
  }

  /** The entries before `m` with which nothing is wrong. */
  ghost function Faultless(entries: seq<Entry>, m: nat, now: nat): set<nat>
    requires m <= |entries|
  {
    set i: nat | i < m && Fault(entries, i, now).None?
  }

  /** `last` holds the latest time of each business among the entries `clear`. */
  ghost predicate LastOk(entries: seq<Entry>, clear: set<nat>, last: map<Address, nat>)
    requires forall i :: i in clear ==> i < |entries|
  {
    && (forall i :: i in clear ==>
          entries[i].business in last && entries[i].record.recordedAt <= last[entries[i].business])
    && (forall b :: b in last ==> LastHeldBy(entries, clear, b, last[b]))
  }

  ghost predicate LastHeldBy(entries: seq<Entry>, clear: set<nat>, b: Address, at: nat)
    requires forall i :: i in clear ==> i < |entries|
  {
    exists i :: i in clear && entries[i].business == b && entries[i].record.recordedAt == at
  }

  lemma SeenNext(entries: seq<Entry>, m: nat, now: nat, seen: set<Key>)
    requires m < |entries| && SeenOk(entries, m, now, seen)
    ensures SeenOk(entries, m + 1, now, if Plausible(entries[m], now) then seen + {entries[m].KeyOf()} else seen)
  {
    var next := if Plausible(entries[m], now) then seen + {entries[m].KeyOf()} else seen;
    forall k
      ensures k in next <==> exists i :: 0 <= i < m + 1 && Plausible(entries[i], now) && entries[i].KeyOf() == k {
      if k in seen {
        var i :| 0 <= i < m && Plausible(entries[i], now) && entries[i].KeyOf() == k;
      }
    }
  }

  lemma LastNext(entries: seq<Entry>, clear: set<nat>, last: map<Address, nat>, m: nat)
    requires m < |entries| && (forall i :: i in clear ==> i < m) && LastOk(entries, clear, last)
    requires entries[m].business in last ==> last[entries[m].business] <= entries[m].record.recordedAt
    ensures LastOk(entries, clear + {m}, last[entries[m].business := entries[m].record.recordedAt])
  {
    var e := entries[m];
    var next := last[e.business := e.record.recordedAt];
    forall b | b in next ensures LastHeldBy(entries, clear + {m}, b, next[b]) {
      if b == e.business {
        assert m in clear + {m};
      } else {
        assert LastHeldBy(entries, clear, b, last[b]);
        var i :| i in clear && entries[i].business == b && entries[i].record.recordedAt == last[b];
        assert i in clear + {m};
      }
    }
  }

  lemma FaultlessNext(entries: seq<Entry>, m: nat, now: nat)
    requires m < |entries|
    ensures Faultless(entries, m + 1, now) ==
              Faultless(entries, m, now) + if Fault(entries, m, now).None? then {m} else {}
  {
  }

  /** One step finds the fault of its entry. */
  lemma StepFindsFault(entries: seq<Entry>, m: nat, now: nat, s: Scan)
    requires m < |entries| && SeenOk(entries, m, now, s.seen) && LastOk(entries, Faultless(entries, m, now), s.last)
    ensures Fault(entries, m, now).None? && entries[m].business in s.last ==>
              s.last[entries[m].business] <= entries[m].record.recordedAt
    ensures
      var e, fault, next := entries[m], Fault(entries, m, now), ScanEntry(s, entries[m], m, now);
      && next.violations == s.violations + (if fault.Some? then [Violation(m, fault.value)] else [])
      && next.seen == (if Plausible(e, now) then s.seen + {e.KeyOf()} else s.seen)
      && next.last == if fault.None? then s.last[e.business := e.record.recordedAt] else s.last
  {
    var e := entries[m];
    assert e.KeyOf() in s.seen <==> RepeatsKey(entries, m, now);
    if e.business in s.last && e.record.recordedAt < s.last[e.business] {
      assert LastHeldBy(entries, Faultless(entries, m, now), e.business, s.last[e.business]);
    }
    forall i | 0 <= i < m && Fault(entries, i, now).None? && entries[i].business == e.business
      ensures e.business in s.last && entries[i].record.recordedAt <= s.last[e.business] {
      assert i in Faultless(entries, m, now);
    }
    assert s.violations + [] == s.violations;
  }

  /** What the scan knows after the first `m` entries. */
  ghost predicate ScanOk(entries: seq<Entry>, m: nat, now: nat, s: Scan)
    requires m <= |entries|
  {
    && s.violations == Faults(entries, m, now)
    && SeenOk(entries, m, now, s.seen)
    && LastOk(entries, Faultless(entries, m, now), s.last)
  }

  lemma LastAfter(entries: seq<Entry>, m: nat, now: nat, last: map<Address, nat>, next: map<Address, nat>)
    requires m < |entries| && LastOk(entries, Faultless(entries, m, now), last)
    requires Fault(entries, m, now).None? && entries[m].business in last ==>
               last[entries[m].business] <= entries[m].record.recordedAt
    requires next == if Fault(entries, m, now).None? then last[entries[m].business := entries[m].record.recordedAt]
                     else last
    ensures LastOk(entries, Faultless(entries, m + 1, now), next)
  {
    FaultlessNext(entries, m, now);
    if Fault(entries, m, now).None? {
      LastNext(entries, Faultless(entries, m, now), last, m);
    } else {
      assert Faultless(entries, m + 1, now) == Faultless(entries, m, now);
    }
  }

  lemma StepKeepsScanOk(entries: seq<Entry>, m: nat, now: nat, s: Scan)
    requires m < |entries| && ScanOk(entries, m, now, s)
    ensures ScanOk(entries, m + 1, now, ScanEntry(s, entries[m], m, now))
  {
    var next := ScanEntry(s, entries[m], m, now);
    StepFindsFault(entries, m, now, s);
    SeenNext(entries, m, now, s.seen);
    LastAfter(entries, m, now, s.last, next.last);
  }

  lemma {:induction false} ScanFindsFaults(entries: seq<Entry>, m: nat, now: nat)
    requires m <= |entries|
    ensures ScanOk(entries, m, now, ScanAll(entries[..m], now))
  {
    if m == 0 {
      assert entries[..0] == [];
    } else {
      ScanFindsFaults(entries, m - 1, now);
      assert entries[..m][..m - 1] == entries[..m - 1];
      StepKeepsScanOk(entries, m - 1, now, ScanAll(entries[..m - 1], now));
    }
  }

  /** The report lists exactly the faulty entries, in order, each with its index and its fault. */
  lemma ReportListsTheFaults(a: Archive, fp: Fingerprint, caller: Address, entries: seq<Entry>, now: nat, ledger: nat)
    requires DryRun(a, fp, caller, entries, now, ledger).Some?
    ensures
      var report := DryRun(a, fp, caller, entries, now, ledger).value.1;
      && report.violations == Faults(entries, |entries|, now)
      && report.checked == |entries|
      && report.valid == |entries| - |Faults(entries, |entries|, now)|
      && report.deadline == if report.ready then ledger + RESTORE_COMMIT_WINDOW_LEDGERS else 0
  {
    ScanFindsFaults(entries, |entries|, now);
    assert entries[..|entries|] == entries;
    AtMostOneFaultEach(entries, |entries|, now);
  }

  lemma {:induction false} AtMostOneFaultEach(entries: seq<Entry>, m: nat, now: nat)
    requires m <= |entries|
    ensures |Faults(entries, m, now)| <= m
  {
    if m > 0 {
      AtMostOneFaultEach(entries, m - 1, now);
    }
  }

  /** Both directions for the entry point: a dry run reports ready, and leaves a token bound to
      this batch's fingerprint, exactly when the batch is clean. */
  lemma DryRunReadyIff(a: Archive, fp: Fingerprint, caller: Address, entries: seq<Entry>, now: nat, ledger: nat)
    requires DryRun(a, fp, caller, entries, now, ledger).Some?
    ensures
      var (b, report) := DryRun(a, fp, caller, entries, now, ledger).value;
      && (report.ready <==> Clean(entries, now))
      && b.(pending := a.pending) == a
      && b.pending == (if Clean(entries, now)
                       then a.pending[caller := Token(fp(Stamps(entries)), report.deadline)] else a.pending)
  {
    ScanFindsExactlyTheUnclean(entries, now);
  }

  /** Exactly when a dry run gives a report at all: at most 1024 entries, all of schema version
      one, and for a clean batch a deadline within the 32-bit ledger range. */
  lemma DryRunCommitsIff(a: Archive, fp: Fingerprint, caller: Address, entries: seq<Entry>, now: nat, ledger: nat)
    ensures DryRun(a, fp, caller, entries, now, ledger).Some? <==>
              && |entries| <= 1024
              && (forall e :: e in entries ==> e.schemaVersion == 1)
              && (Clean(entries, now) ==> ledger <= U32_MAX - RESTORE_COMMIT_WINDOW_LEDGERS)
  {
    ScanFindsExactlyTheUnclean(entries, now);
    if SchemaOk(entries) {
      assert forall e :: e in entries ==> e.schemaVersion == 1;
    } else {
      var i :| 0 <= i < |entries| && entries[i].schemaVersion != SNAPSHOT_SCHEMA_VERSION;
      assert entries[i] in entries;
    }
  }

  /* ---------- The commit ---------- */

  /** The count declared by the first entry of a business. */
  function FirstDeclared(entries: seq<Entry>, b: Address): Option<nat> {
    if entries == [] then None
    else
      match FirstDeclared(entries[..|entries| - 1], b)
      case Some(n) => Some(n)
      case None =>
        if entries[|entries| - 1].business == b then Some(entries[|entries| - 1].businessCount) else None
  }

  function CountOf(entries: seq<Entry>, b: Address): nat {
    if entries == [] then 0
    else CountOf(entries[..|entries| - 1], b) + if entries[|entries| - 1].business == b then 1 else 0
  }

  predicate CountsAgree(entries: seq<Entry>) {
    forall i :: 0 <= i < |entries| ==>
      FirstDeclared(entries, entries[i].business) == Some(CountOf(entries, entries[i].business))
  }

  /** The entries of one business. */
  function EntriesOf(entries: seq<Entry>, b: Address): set<nat> {
    set i: nat | i < |entries| && entries[i].business == b
  }

  lemma {:induction false} CountOfMeaning(entries: seq<Entry>, b: Address)
    ensures CountOf(entries, b) == |EntriesOf(entries, b)|
  {
    if entries == [] {
      assert EntriesOf(entries, b) == {};
    } else {
      var front, n := entries[..|entries| - 1], |entries| - 1;
      CountOfMeaning(front, b);
      assert EntriesOf(entries, b) == EntriesOf(front, b) + if entries[n].business == b then {n} else {};
    }
  }

  /** Entry `i` is the first of its business. */
  ghost predicate LeadsItsBusiness(entries: seq<Entry>, i: nat) {
    && i < |entries|
    && forall j :: 0 <= j < i ==> entries[j].business != entries[i].business
  }

  lemma {:induction false} FirstDeclaredMeaning(entries: seq<Entry>, b: Address)
    ensures FirstDeclared(entries, b).None? <==> EntriesOf(entries, b) == {}
    ensures forall i: nat :: LeadsItsBusiness(entries, i) && entries[i].business == b ==>
              FirstDeclared(entries, b) == Some(entries[i].businessCount)
  {
    if entries == [] {
      assert EntriesOf(entries, b) == {};
    } else {
      var front, n := entries[..|entries| - 1], |entries| - 1;
      FirstDeclaredMeaning(front, b);
      assert EntriesOf(entries, b) == EntriesOf(front, b) + if entries[n].business == b then {n} else {};
      forall i: nat | LeadsItsBusiness(entries, i) && entries[i].business == b
        ensures FirstDeclared(entries, b) == Some(entries[i].businessCount) {
        if i < n {
          assert LeadsItsBusiness(front, i);
        } else {
          assert EntriesOf(front, b) == {};
        }
      }
    }
  }

  lemma {:induction false} SomeEntryLeads(entries: seq<Entry>, i: nat) returns (first: nat)
    requires i < |entries|
    ensures first <= i && LeadsItsBusiness(entries, first) && entries[first].business == entries[i].business
  {
    if j: nat :| j < i && entries[j].business == entries[i].business {
      first := SomeEntryLeads(entries, j);
    } else {
      first := i;
    }
  }

  /** The count check passes exactly when the first entry of every business declares how many
      entries of that business the batch has. What later entries declare is ignored. */
  lemma CountsAgreeIff(entries: seq<Entry>)
    ensures CountsAgree(entries) <==>
              forall i: nat :: LeadsItsBusiness(entries, i) ==>
                entries[i].businessCount == |EntriesOf(entries, entries[i].business)|
  {
    if CountsAgree(entries) {
      forall i: nat | LeadsItsBusiness(entries, i)
        ensures entries[i].businessCount == |EntriesOf(entries, entries[i].business)| {
        assert FirstDeclared(entries, entries[i].business) == Some(CountOf(entries, entries[i].business));
        FirstDeclaredMeaning(entries, entries[i].business);
        CountOfMeaning(entries, entries[i].business);
      }
    }
    if forall i: nat :: LeadsItsBusiness(entries, i) ==>
         entries[i].businessCount == |EntriesOf(entries, entries[i].business)| {
      forall i | 0 <= i < |entries|
        ensures FirstDeclared(entries, entries[i].business) == Some(CountOf(entries, entries[i].business)) {
        var first := SomeEntryLeads(entries, i);
        FirstDeclaredMeaning(entries, entries[i].business);
        CountOfMeaning(entries, entries[i].business);
      }
    }
  }

  /** Writes the entries in order, skipping those whose epoch is finalized. */
  function WriteEntries(a: Archive, entries: seq<Entry>): Option<Archive> {
    if entries == [] then Some(a)
    else
      match WriteEntries(a, entries[..|entries| - 1])
      case None => None
      case Some(b) =>
        var e := entries[|entries| - 1];
        if e.period in b.finalized then Some(b) else Put(b, e.KeyOf(), e.record)
  }

  predicate Acceptable(a: Archive, fp: Fingerprint, caller: Address, entries: seq<Entry>, ledger: nat) {
    && caller in a.pending
    && ledger <= a.pending[caller].expiresAt
    && fp(Stamps(entries)) == a.pending[caller].batchHash
    && SchemaOk(entries)
    && CountsAgree(entries)
  }

  function Commit(a: Archive, fp: Fingerprint, caller: Address, entries: seq<Entry>, ledger: nat): Option<Archive> {
    if !Acceptable(a, fp, caller, entries, ledger) then None
    else
      match WriteEntries(a.(pending := a.pending - {caller}), entries)
      case None => None
      case Some(b) => Some(b.(lastRestore := Some(fp(Stamps(entries)))))
  }

  /* ---------- What a commit writes ---------- */

  ghost predicate DistinctKeys(entries: seq<Entry>) {
    forall i, j :: 0 <= i < j < |entries| ==> entries[i].KeyOf() != entries[j].KeyOf()
  }

  lemma {:induction false} WritesKeepTheRest(a: Archive, entries: seq<Entry>)
    requires WriteEntries(a, entries).Some?
    ensures
      var b := WriteEntries(a, entries).value;
      && b.finalized == a.finalized && b.allEpochs == a.allEpochs
      && b.pending == a.pending && b.lastRestore == a.lastRestore
      && (Inv(a) ==> Inv(b))
  {
    if entries != [] {
      WritesKeepTheRest(a, entries[..|entries| - 1]);
      var b, e := WriteEntries(a, entries[..|entries| - 1]).value, entries[|entries| - 1];
      if Inv(a) && e.period !in b.finalized {
        PutKeepsInv(b, e.KeyOf(), e.record);
      }
    }
  }

  /** Entry `i` is one of the writes: it names `k` and its epoch is not finalized. */
  ghost predicate Writes(a: Archive, entries: seq<Entry>, i: int, k: Key) {
    0 <= i < |entries| && entries[i].KeyOf() == k && k.period !in a.finalized
  }

  /** With distinct keys the commit stores precisely the entries of unfinalized epochs and
      leaves every other snapshot as it was. */
  lemma {:induction false} CommitWritesExactly(a: Archive, entries: seq<Entry>, k: Key)
    requires WriteEntries(a, entries).Some? && DistinctKeys(entries)
    ensures forall i :: Writes(a, entries, i, k) ==>
              Lookup(WriteEntries(a, entries).value.snapshots, k) == Some(entries[i].record)
    ensures (forall i :: !Writes(a, entries, i, k)) ==>
              Lookup(WriteEntries(a, entries).value.snapshots, k) == Lookup(a.snapshots, k)
  {
    if entries != [] {
      var n := |entries| - 1;
      var front := entries[..n];
      CommitWritesExactly(a, front, k);
      WritesKeepTheRest(a, front);
      assert forall i :: 0 <= i < n ==> front[i] == entries[i];
      assert forall i :: Writes(a, front, i, k) ==> Writes(a, entries, i, k);
      assert Writes(a, entries, n, k) <==> entries[n].KeyOf() == k && k.period !in a.finalized;
      forall i | Writes(a, entries, i, k)
        ensures Lookup(WriteEntries(a, entries).value.snapshots, k) == Some(entries[i].record) {
        assert i < n ==> Writes(a, front, i, k);
      }
    }
  }

  /** A restore never touches a finalized epoch. */
  lemma {:induction false} RestoreRespectsFinalization(a: Archive, entries: seq<Entry>, epoch: Period)
    requires WriteEntries(a, entries).Some? && epoch in a.finalized
    ensures EpochFrozen(a, WriteEntries(a, entries).value, epoch)
  {
    if entries != [] {
      RestoreRespectsFinalization(a, entries[..|entries| - 1], epoch);
      WritesKeepTheRest(a, entries[..|entries| - 1]);
      var b, e := WriteEntries(a, entries[..|entries| - 1]).value, entries[|entries| - 1];
      if e.period !in b.finalized {
        PutElsewhereIsFrozen(b, e.KeyOf(), e.record, epoch);
      }
    }
  }

  /** How many entries add a period to the list of `b`: their epoch is not finalized and the
      period is not listed yet. */
  function NewPeriods(periods: seq<Period>, finalized: map<Period, Finalization>, entries: seq<Entry>,
                      b: Address): nat {
    if entries == [] then 0
    else
      var e := entries[|entries| - 1];
      NewPeriods(periods, finalized, entries[..|entries| - 1], b)
      + if e.business == b && e.period !in finalized && e.period !in periods then 1 else 0
  }

  function NewBusinesses(businesses: seq<Address>, finalized: map<Period, Finalization>, entries: seq<Entry>,
                         p: Period): nat {
    if entries == [] then 0
    else
      var e := entries[|entries| - 1];
      NewBusinesses(businesses, finalized, entries[..|entries| - 1], p)
      + if e.period == p && p !in finalized && e.business !in businesses then 1 else 0
  }

  function PeriodsAfter(a: Archive, entries: seq<Entry>, b: Address): nat {
    |a.Periods(b)| + NewPeriods(a.Periods(b), a.finalized, entries, b)
  }

  function BusinessesAfter(a: Archive, entries: seq<Entry>, p: Period): nat {
    |a.Businesses(p)| + NewBusinesses(a.Businesses(p), a.finalized, entries, p)
  }

  /** Every list has room for what the entries add to it. */
  ghost predicate Room(a: Archive, entries: seq<Entry>) {
    && (forall b :: PeriodsAfter(a, entries, b) <= MAX_BUSINESS_PERIODS)
    && (forall p :: BusinessesAfter(a, entries, p) <= MAX_EPOCH_BUSINESSES)
  }

  ghost predicate ListsGrow(a: Archive, entries: seq<Entry>, after: Archive) {
    && (forall b :: |after.Periods(b)| == PeriodsAfter(a, entries, b))
    && (forall p :: |after.Businesses(p)| == BusinessesAfter(a, entries, p))
  }

  /** A key that is not among the entries written so far is indexed as it was before them. */
  lemma UnwrittenKeyIsAsBefore(a: Archive, front: seq<Entry>, after: Archive, k: Key)
    requires Inv(a) && DistinctKeys(front) && WriteEntries(a, front) == Some(after)
    requires forall i :: 0 <= i < |front| ==> front[i].KeyOf() != k
    ensures k.period in after.Periods(k.business) <==> k.period in a.Periods(k.business)
    ensures k.business in after.Businesses(k.period) <==> k.period in a.Periods(k.business)
    ensures k.business in a.Businesses(k.period) <==> k.period in a.Periods(k.business)
  {
    WritesKeepTheRest(a, front);
    CommitWritesExactly(a, front, k);
    assert Lookup(after.snapshots, k) == Lookup(a.snapshots, k);
    assert IndexOk(a, k.business, k.period) && IndexOk(after, k.business, k.period);
    assert k == Key(k.business, k.period);
  }

  /** What one more entry adds to the lists of `b` and `p`. */
  predicate AddsPeriod(a: Archive, e: Entry, b: Address) {
    e.business == b && e.period !in a.finalized && e.period !in a.Periods(b)
  }

  predicate AddsBusiness(a: Archive, e: Entry, p: Period) {
    e.period == p && p !in a.finalized && e.business !in a.Businesses(p)
  }

  /** One write, by the length of the lists before it. */
  lemma WriteOne(before: Archive, e: Entry)
    ensures
      var next := if e.period in before.finalized then Some(before) else Put(before, e.KeyOf(), e.record);
      && (next.Some? <==>
            && (AddsPeriod(before, e, e.business) ==> |before.Periods(e.business)| < MAX_BUSINESS_PERIODS)
            && (AddsBusiness(before, e, e.period) ==> |before.Businesses(e.period)| < MAX_EPOCH_BUSINESSES))
      && (next.Some? ==>
            && (forall b :: |next.value.Periods(b)| ==
                  |before.Periods(b)| + if AddsPeriod(before, e, b) then 1 else 0)
            && (forall p :: |next.value.Businesses(p)| ==
                  |before.Businesses(p)| + if AddsBusiness(before, e, p) then 1 else 0))
  {
  }

  /** An entry whose key is new adds to the same lists before and after the entries before it. */
  lemma AddsAsBefore(a: Archive, front: seq<Entry>, e: Entry, before: Archive)
    requires Inv(a) && DistinctKeys(front + [e]) && WriteEntries(a, front) == Some(before)
    ensures forall b :: AddsPeriod(before, e, b) <==> AddsPeriod(a, e, b)
    ensures forall p :: AddsBusiness(before, e, p) <==> AddsBusiness(a, e, p)
  {
    var all := front + [e];
    assert all[|front|] == e;
    assert forall i :: 0 <= i < |front| ==> all[i] == front[i];
    WritesKeepTheRest(a, front);
    UnwrittenKeyIsAsBefore(a, front, before, e.KeyOf());
  }

  /** One entry more adds at most its own period and its own business. */
  lemma RoomForOneMore(a: Archive, front: seq<Entry>, e: Entry, b: Address, p: Period)
    ensures PeriodsAfter(a, front + [e], b) == PeriodsAfter(a, front, b) + if AddsPeriod(a, e, b) then 1 else 0
    ensures BusinessesAfter(a, front + [e], p) == BusinessesAfter(a, front, p) + if AddsBusiness(a, e, p) then 1 else 0
  {
    assert (front + [e])[..|front|] == front;
  }

  lemma GrowthAddsUp(a: Archive, front: seq<Entry>, e: Entry, before: Archive, next: Archive)
    requires ListsGrow(a, front, before)
    requires forall b :: |next.Periods(b)| == |before.Periods(b)| + if AddsPeriod(a, e, b) then 1 else 0
    requires forall p :: |next.Businesses(p)| == |before.Businesses(p)| + if AddsBusiness(a, e, p) then 1 else 0
    ensures ListsGrow(a, front + [e], next)
  {
    forall b ensures |next.Periods(b)| == PeriodsAfter(a, front + [e], b) {
      RoomForOneMore(a, front, e, b, e.period);
    }
    forall p ensures |next.Businesses(p)| == BusinessesAfter(a, front + [e], p) {
      RoomForOneMore(a, front, e, e.business, p);
    }
  }

  /** The next entry fits exactly when there is room for it, and the lists grow as counted. */
  lemma OneMoreWrite(a: Archive, front: seq<Entry>, e: Entry, before: Archive)
    requires Inv(a) && DistinctKeys(front + [e]) && WriteEntries(a, front) == Some(before)
    requires ListsGrow(a, front, before)
    ensures WriteEntries(a, front + [e]).Some? ==> ListsGrow(a, front + [e], WriteEntries(a, front + [e]).value)
    ensures Room(a, front + [e]) ==> WriteEntries(a, front + [e]).Some?
  {
    var all := front + [e];
    assert all[..|front|] == front && all[|front|] == e;
    WriteOne(before, e);
    AddsAsBefore(a, front, e, before);
    WritesKeepTheRest(a, front);
    if WriteEntries(a, all).Some? {
      GrowthAddsUp(a, front, e, before, WriteEntries(a, all).value);
    } else {
      RoomForOneMore(a, front, e, e.business, e.period);
      assert PeriodsAfter(a, all, e.business) > MAX_BUSINESS_PERIODS
             || BusinessesAfter(a, all, e.period) > MAX_EPOCH_BUSINESSES;
    }
  }

  /** Lists that grew as counted and still satisfy the invariant had room. */
  lemma GrownHadRoom(a: Archive, entries: seq<Entry>, after: Archive)
    requires Inv(after) && ListsGrow(a, entries, after)
    ensures Room(a, entries)
  {
    forall b ensures PeriodsAfter(a, entries, b) <= MAX_BUSINESS_PERIODS {
      assert |after.Periods(b)| == PeriodsAfter(a, entries, b);
    }
    forall p ensures BusinessesAfter(a, entries, p) <= MAX_EPOCH_BUSINESSES {
      assert |after.Businesses(p)| == BusinessesAfter(a, entries, p);
    }
  }

  lemma RoomForFewer(a: Archive, front: seq<Entry>, e: Entry)
    requires Room(a, front + [e])
    ensures Room(a, front)
  {
    forall b ensures PeriodsAfter(a, front, b) <= MAX_BUSINESS_PERIODS {
      RoomForOneMore(a, front, e, b, e.period);
    }
    forall p ensures BusinessesAfter(a, front, p) <= MAX_EPOCH_BUSINESSES {
      RoomForOneMore(a, front, e, e.business, p);
    }
  }

  /** Writing entries with distinct keys succeeds exactly when every list has room. */
  lemma {:induction false} WriteEntriesIff(a: Archive, entries: seq<Entry>)
    requires Inv(a) && DistinctKeys(entries)
    ensures WriteEntries(a, entries).Some? <==> Room(a, entries)
    ensures WriteEntries(a, entries).Some? ==> ListsGrow(a, entries, WriteEntries(a, entries).value)
  {
    if entries != [] {
      var front, e := entries[..|entries| - 1], entries[|entries| - 1];
      assert entries == front + [e];
      WriteEntriesIff(a, front);
      if WriteEntries(a, front).Some? {
        OneMoreWrite(a, front, e, WriteEntries(a, front).value);
      } else if Room(a, entries) {
        RoomForFewer(a, front, e);
      }
    }
    if WriteEntries(a, entries).Some? {
      WritesKeepTheRest(a, entries);
      GrownHadRoom(a, entries, WriteEntries(a, entries).value);
    }
  }

  /* ---------- What the token binds ---------- */

  /** Batches with the same stamps have the same keys, so they need the same room and have the
      same counts; records and declared counts may differ. */
  lemma {:induction false} SameStampsSameKeys(xs: seq<Entry>, ys: seq<Entry>)
    requires Stamps(xs) == Stamps(ys)
    ensures |xs| == |ys|
    ensures forall i :: 0 <= i < |xs| ==> xs[i].KeyOf() == ys[i].KeyOf() && xs[i].schemaVersion == ys[i].schemaVersion
    ensures SchemaOk(xs) <==> SchemaOk(ys)
    ensures DistinctKeys(xs) <==> DistinctKeys(ys)
  {
    forall i | 0 <= i < |xs|
      ensures xs[i].KeyOf() == ys[i].KeyOf() && xs[i].schemaVersion == ys[i].schemaVersion {
      assert Stamps(xs)[i] == Stamps(ys)[i];
    }
  }

  lemma {:induction false} SameWrites(a: Archive, xs: seq<Entry>, ys: seq<Entry>)
    requires |xs| == |ys|
    requires forall i :: 0 <= i < |xs| ==> xs[i].KeyOf() == ys[i].KeyOf()
    ensures WriteEntries(a, xs).Some? <==> WriteEntries(a, ys).Some?
    ensures WriteEntries(a, xs).Some? ==>
              WriteEntries(a, xs).value.(snapshots := map[]) == WriteEntries(a, ys).value.(snapshots := map[])
  {
    if xs != [] {
      SameWrites(a, xs[..|xs| - 1], ys[..|ys| - 1]);
      assert xs[|xs| - 1].KeyOf() == ys[|ys| - 1].KeyOf();
    }
  }

  /** The token does not bind the records or the declared counts: whenever a batch commits, so
      does every other batch with the same stamps whose declared counts are right, whatever
      its records say, although only one of them went through the dry run. */
  lemma CommitDoesNotBindRecords(a: Archive, fp: Fingerprint, caller: Address, ledger: nat,
    checked: seq<Entry>, swapped: seq<Entry>)
    requires Stamps(checked) == Stamps(swapped) && CountsAgree(swapped)
    ensures Acceptable(a, fp, caller, checked, ledger) ==> Acceptable(a, fp, caller, swapped, ledger)
    ensures Commit(a, fp, caller, checked, ledger).Some? ==> Commit(a, fp, caller, swapped, ledger).Some?
  {
    SameStampsSameKeys(checked, swapped);
    SameWrites(a.(pending := a.pending - {caller}), checked, swapped);
  }

  /* ---------- Runs of the whole contract ---------- */

  datatype Call =
    | RecordCall(k: Key, record: SnapshotRecord, attested: bool)
    | FinalizeCall(caller: Address, epoch: Period, now: nat)
    | DryRunCall(caller: Address, entries: seq<Entry>, now: nat, ledger: nat)
    | CommitCall(caller: Address, entries: seq<Entry>, ledger: nat)

  function Apply(a: Archive, fp: Fingerprint, call: Call): Option<Archive> {
    match call
    case RecordCall(k, record, attested) => RecordSnapshot(a, k, record, attested)
    case FinalizeCall(caller, epoch, now) => FinalizeEpoch(a, caller, epoch, now)
    case DryRunCall(caller, entries, now, ledger) =>
      (match DryRun(a, fp, caller, entries, now, ledger)
       case None => None
       case Some(pair) => Some(pair.0))
    case CommitCall(caller, entries, ledger) => Commit(a, fp, caller, entries, ledger)
  }

  datatype Checked = Checked(entries: seq<Entry>, now: nat, deadline: nat)

  /** `dryRuns` holds each caller's latest clean dry run that no commit has used yet. */
  datatype Run = Run(archive: Archive, dryRuns: map<Address, Checked>)

  function Next(r: Run, fp: Fingerprint, call: Call): Run {
    match Apply(r.archive, fp, call)
    case None => r
    case Some(after) =>
      Run(after,
          if call.DryRunCall? && ScanAll(call.entries, call.now).violations == []
          then r.dryRuns[call.caller :=
                           Checked(call.entries, call.now, call.ledger + RESTORE_COMMIT_WINDOW_LEDGERS)]
          else if call.CommitCall? then r.dryRuns - {call.caller}
          else r.dryRuns)
  }

  function After(fp: Fingerprint, calls: seq<Call>): Run {
    if calls == [] then Run(Empty, map[]) else Next(After(fp, calls[..|calls| - 1]), fp, calls[|calls| - 1])
  }

  ghost predicate TokenOk(r: Run, fp: Fingerprint, caller: Address) {
    && (caller in r.archive.pending <==> caller in r.dryRuns)
    && (caller in r.dryRuns ==>
          && Clean(r.dryRuns[caller].entries, r.dryRuns[caller].now)
          && SchemaOk(r.dryRuns[caller].entries)
          && r.archive.pending[caller] == Token(fp(Stamps(r.dryRuns[caller].entries)), r.dryRuns[caller].deadline))
  }

  ghost predicate RunInv(r: Run, fp: Fingerprint) {
    && Inv(r.archive)
    && forall caller :: TokenOk(r, fp, caller)
  }

  lemma CommitKeepsInv(a: Archive, fp: Fingerprint, caller: Address, entries: seq<Entry>, ledger: nat)
    requires Inv(a) && Commit(a, fp, caller, entries, ledger).Some?
    ensures Inv(Commit(a, fp, caller, entries, ledger).value)
    ensures Commit(a, fp, caller, entries, ledger).value.pending == a.pending - {caller}
    ensures Commit(a, fp, caller, entries, ledger).value.allEpochs == a.allEpochs
  {
    var b := a.(pending := a.pending - {caller});
    SameIndexesKeepInv(a, b);
    WritesKeepTheRest(b, entries);
    SameIndexesKeepInv(WriteEntries(b, entries).value, Commit(a, fp, caller, entries, ledger).value);
  }

  lemma ApplyKeepsInv(a: Archive, fp: Fingerprint, call: Call)
    requires Inv(a) && Apply(a, fp, call).Some?
    ensures Inv(Apply(a, fp, call).value)
  {
    match call
    case RecordCall(k, record, attested) => RecordKeepsInv(a, k, record, attested);
    case FinalizeCall(caller, epoch, now) => FinalizeKeepsInv(a, caller, epoch, now);
    case DryRunCall(caller, entries, now, ledger) => SameIndexesKeepInv(a, Apply(a, fp, call).value);
    case CommitCall(caller, entries, ledger) => CommitKeepsInv(a, fp, caller, entries, ledger);
  }

  lemma PendingChange(a: Archive, fp: Fingerprint, call: Call)
    requires Inv(a) && Apply(a, fp, call).Some?
    ensures !call.DryRunCall? && !call.CommitCall? ==> Apply(a, fp, call).value.pending == a.pending
    ensures call.CommitCall? ==> Apply(a, fp, call).value.pending == a.pending - {call.caller}
  {
    if call.CommitCall? {
      CommitKeepsInv(a, fp, call.caller, call.entries, call.ledger);
    }
  }

  lemma NextKeepsInv(r: Run, fp: Fingerprint, call: Call)
    requires RunInv(r, fp)
    ensures RunInv(Next(r, fp, call), fp)
  {
    if Apply(r.archive, fp, call).Some? {
      ApplyKeepsInv(r.archive, fp, call);
      PendingChange(r.archive, fp, call);
      forall caller ensures TokenOk(Next(r, fp, call), fp, caller) {
        assert TokenOk(r, fp, caller);
        if call.DryRunCall? {
          ScanFindsExactlyTheUnclean(call.entries, call.now);
        }
      }
    }
  }

  /** Recording, finalizing and restoring in any order: a snapshot exists exactly when the
      period is listed for the business and the business for the period, all lists are
      duplicate-free and bounded, and every token stems from one unused clean dry run. */
  lemma {:induction false} EveryArchiveIsIndexed(fp: Fingerprint, calls: seq<Call>)
    ensures RunInv(After(fp, calls), fp)
  {
    if calls == [] {
      forall b, p ensures IndexOk(Empty, b, p) {
      }
      assert forall b :: Empty.Periods(b) == [];
      assert forall p :: Empty.Businesses(p) == [];
    } else {
      EveryArchiveIsIndexed(fp, calls[..|calls| - 1]);
      NextKeepsInv(After(fp, calls[..|calls| - 1]), fp, calls[|calls| - 1]);
    }
  }

  /** A commit that succeeds follows a clean dry run of the same ordered keys, passes the count
      check, and uses the token up: without another dry run no further commit succeeds. */
  lemma CommitUsesOneCleanDryRun(fp: Fingerprint, calls: seq<Call>, caller: Address, entries: seq<Entry>, ledger: nat)
    requires CollisionFree(fp)
    requires Commit(After(fp, calls).archive, fp, caller, entries, ledger).Some?
    ensures
      var r := After(fp, calls);
      && caller in r.dryRuns
      && Clean(r.dryRuns[caller].entries, r.dryRuns[caller].now)
      && Stamps(entries) == Stamps(r.dryRuns[caller].entries)
      && DistinctKeys(entries)
      && CountsAgree(entries)
      && Commit(r.archive, fp, caller, entries, ledger).value.lastRestore == Some(fp(Stamps(entries)))
      && (forall more, later ::
            Commit(Commit(r.archive, fp, caller, entries, ledger).value, fp, caller, more, later).None?)
  {
    EveryArchiveIsIndexed(fp, calls);
    var r := After(fp, calls);
    assert TokenOk(r, fp, caller);
    var checked := r.dryRuns[caller].entries;
    assert Stamps(entries) == Stamps(checked);
    forall i, j | 0 <= i < j < |entries| ensures entries[i].KeyOf() != entries[j].KeyOf() {
      assert EntryClean(checked, j, r.dryRuns[caller].now);
      assert Stamps(entries)[i].key == checked[i].KeyOf() && Stamps(entries)[j].key == checked[j].KeyOf();
    }
    CommitKeepsInv(r.archive, fp, caller, entries, ledger);
  }

  lemma CleanKeysAreDistinct(entries: seq<Entry>, now: nat)
    requires Clean(entries, now)
    ensures DistinctKeys(entries)
  {
    forall i, j | 0 <= i < j < |entries| ensures entries[i].KeyOf() != entries[j].KeyOf() {
      assert EntryClean(entries, j, now);
    }
  }

  /** Over every run, exactly when a commit succeeds: the caller has an unused clean dry run of
      the same ordered keys, its deadline has not passed, the batch's own declared counts are
      right, and the index lists have room. The records play no part. */
  lemma CommitCommitsIff(fp: Fingerprint, calls: seq<Call>, caller: Address, entries: seq<Entry>, ledger: nat)
    requires CollisionFree(fp)
    ensures
      var r := After(fp, calls);
      Commit(r.archive, fp, caller, entries, ledger).Some? <==>
        && caller in r.dryRuns
        && ledger <= r.dryRuns[caller].deadline
        && Stamps(entries) == Stamps(r.dryRuns[caller].entries)
        && CountsAgree(entries)
        && Room(r.archive, entries)
  {
    EveryArchiveIsIndexed(fp, calls);
    var r := After(fp, calls);
    assert TokenOk(r, fp, caller);
    if caller in r.dryRuns && Stamps(entries) == Stamps(r.dryRuns[caller].entries) {
      CleanKeysAreDistinct(r.dryRuns[caller].entries, r.dryRuns[caller].now);
      SameStampsSameKeys(entries, r.dryRuns[caller].entries);
      CommitWritesIff(r.archive, caller, entries);
    }
  }

  /** Using the token up takes no room. */
  lemma CommitWritesIff(a: Archive, caller: Address, entries: seq<Entry>)
    requires Inv(a) && DistinctKeys(entries)
    ensures WriteEntries(a.(pending := a.pending - {caller}), entries).Some? <==> Room(a, entries)
  {
    var b := a.(pending := a.pending - {caller});
    SameIndexesKeepInv(a, b);
    WriteEntriesIff(b, entries);
    assert forall x :: PeriodsAfter(b, entries, x) == PeriodsAfter(a, entries, x);
    assert forall p :: BusinessesAfter(b, entries, p) == BusinessesAfter(a, entries, p);
  }

  /** The same keys with other records, every count declared as it is. */
  function WithRecords(entries: seq<Entry>, records: seq<SnapshotRecord>): (other: seq<Entry>)
    requires |records| == |entries|
    ensures |other| == |entries|
    ensures forall i :: 0 <= i < |other| ==>
              other[i] == entries[i].(record := records[i], businessCount := CountOf(entries, entries[i].business))
  {
    seq(|entries|, i requires 0 <= i < |entries| =>
      entries[i].(record := records[i], businessCount := CountOf(entries, entries[i].business)))
  }

  lemma {:induction false} SameBusinessesSameCounts(xs: seq<Entry>, ys: seq<Entry>, b: Address)
    requires |xs| == |ys|
    requires forall i :: 0 <= i < |xs| ==> xs[i].business == ys[i].business
    ensures CountOf(xs, b) == CountOf(ys, b)
  {
    if xs != [] {
      SameBusinessesSameCounts(xs[..|xs| - 1], ys[..|ys| - 1], b);
      assert xs[|xs| - 1].business == ys[|ys| - 1].business;
    }
  }

  lemma {:induction false} UniformlyDeclared(entries: seq<Entry>, b: Address, n: nat)
    requires forall i :: 0 <= i < |entries| && entries[i].business == b ==> entries[i].businessCount == n
    ensures FirstDeclared(entries, b) == if CountOf(entries, b) > 0 then Some(n) else None
  {
    if entries != [] {
      UniformlyDeclared(entries[..|entries| - 1], b, n);
    }
  }

  lemma {:induction false} PresentIsCounted(entries: seq<Entry>, i: nat)
    requires i < |entries|
    ensures CountOf(entries, entries[i].business) > 0
  {
    if i < |entries| - 1 {
      PresentIsCounted(entries[..|entries| - 1], i);
    }
  }

  lemma WithRecordsFits(entries: seq<Entry>, records: seq<SnapshotRecord>)
    requires |records| == |entries|
    ensures Stamps(WithRecords(entries, records)) == Stamps(entries) && CountsAgree(WithRecords(entries, records))
  {
    var other := WithRecords(entries, records);
    forall i | 0 <= i < |other|
      ensures FirstDeclared(other, other[i].business) == Some(CountOf(other, other[i].business)) {
      SameBusinessesSameCounts(entries, other, other[i].business);
      UniformlyDeclared(other, other[i].business, CountOf(entries, other[i].business));
      PresentIsCounted(other, i);
    }
  }

  lemma SameRoom(a: Archive, xs: seq<Entry>, ys: seq<Entry>)
    requires Inv(a) && DistinctKeys(xs) && Stamps(xs) == Stamps(ys)
    ensures Room(a, xs) <==> Room(a, ys)
  {
    SameStampsSameKeys(xs, ys);
    SameWrites(a, xs, ys);
    WriteEntriesIff(a, xs);
    WriteEntriesIff(a, ys);
  }

  /** After a clean dry run, in time and with room, the keys it checked can be committed with
      any records whatever. */
  lemma AnyRecordsCommitIff(fp: Fingerprint, calls: seq<Call>, caller: Address, records: seq<SnapshotRecord>,
                            ledger: nat)
    requires CollisionFree(fp) && caller in After(fp, calls).dryRuns
    requires |records| == |After(fp, calls).dryRuns[caller].entries|
    ensures
      var r := After(fp, calls);
      var checked := r.dryRuns[caller];
      Commit(r.archive, fp, caller, WithRecords(checked.entries, records), ledger).Some? <==>
        ledger <= checked.deadline && Room(r.archive, checked.entries)
  {
    EveryArchiveIsIndexed(fp, calls);
    var r := After(fp, calls);
    var checked := r.dryRuns[caller];
    assert TokenOk(r, fp, caller);
    WithRecordsFits(checked.entries, records);
    CleanKeysAreDistinct(checked.entries, checked.now);
    SameRoom(r.archive, checked.entries, WithRecords(checked.entries, records));
    CommitCommitsIff(fp, calls, caller, WithRecords(checked.entries, records), ledger);
  }

  /** No batch but the one that was checked can be committed. */
  ghost predicate OnlyCheckedCommits(r: Run, fp: Fingerprint, caller: Address, ledger: nat)
    requires caller in r.dryRuns
  {
    forall entries :: Commit(r.archive, fp, caller, entries, ledger).Some? ==> entries == r.dryRuns[caller].entries
  }

  /** Exactly when a dry run keeps other batches out, as it is documented to: when it checked
      nothing, or when nothing can be committed at all. */
  lemma OnlyCheckedCommitsIff(fp: Fingerprint, calls: seq<Call>, caller: Address, ledger: nat)
    requires CollisionFree(fp) && caller in After(fp, calls).dryRuns
    ensures
      var r := After(fp, calls);
      var checked := r.dryRuns[caller];
      OnlyCheckedCommits(r, fp, caller, ledger) <==>
        checked.entries == [] || ledger > checked.deadline || !Room(r.archive, checked.entries)
  {
    var r := After(fp, calls);
    var checked := r.dryRuns[caller];
    if checked.entries != [] && ledger <= checked.deadline && Room(r.archive, checked.entries) {
      var first := checked.entries[0].record;
      var other := first.(recordedAt := first.recordedAt + 1);
      var records := seq(|checked.entries|, _ => other);
      AnyRecordsCommitIff(fp, calls, caller, records, ledger);
      assert WithRecords(checked.entries, records)[0].record == other != first;
    } else {
      forall entries | Commit(r.archive, fp, caller, entries, ledger).Some? ensures entries == checked.entries {
        CommitIsInTimeWithRoom(fp, calls, caller, entries, ledger);
      }
    }
  }

  lemma CommitIsInTimeWithRoom(fp: Fingerprint, calls: seq<Call>, caller: Address, entries: seq<Entry>, ledger: nat)
    requires CollisionFree(fp) && caller in After(fp, calls).dryRuns
    requires Commit(After(fp, calls).archive, fp, caller, entries, ledger).Some?
    ensures
      var r := After(fp, calls);
      var checked := r.dryRuns[caller];
      && ledger <= checked.deadline && Room(r.archive, checked.entries)
      && |entries| == |checked.entries|
  {
    EveryArchiveIsIndexed(fp, calls);
    var r := After(fp, calls);
    assert TokenOk(r, fp, caller);
    CommitCommitsIff(fp, calls, caller, entries, ledger);
    SameStampsSameKeys(entries, r.dryRuns[caller].entries);
    CleanKeysAreDistinct(r.dryRuns[caller].entries, r.dryRuns[caller].now);
    SameRoom(r.archive, r.dryRuns[caller].entries, entries);
  }

  lemma TwoCalls(fp: Fingerprint, first: Call, second: Call)
    ensures After(fp, [first, second]) == Next(Next(Run(Empty, map[]), fp, first), fp, second)
  {
    assert [first, second][..1] == [first] && [first][..0] == [];
    assert After(fp, [first]) == Next(After(fp, [first][..0]), fp, first);
  }

  lemma OneEntryDryRun(fp: Fingerprint, caller: Address, e: Entry, now: nat, ledger: nat)
    requires |e.period| <= MAX_PERIOD_BYTES && e.record.recordedAt <= now
    requires e.schemaVersion == SNAPSHOT_SCHEMA_VERSION && ledger + RESTORE_COMMIT_WINDOW_LEDGERS <= U32_MAX
    ensures
      var token := Token(fp(Stamps([e])), ledger + RESTORE_COMMIT_WINDOW_LEDGERS);
      Apply(Empty, fp, DryRunCall(caller, [e], now, ledger)) == Some(Empty.(pending := map[caller := token]))
  {
    assert [e][..0] == [];
    assert ScanAll([e], now).violations == [];
  }

  lemma OneEntryCommit(fp: Fingerprint, caller: Address, e: Entry, ledger: nat, deadline: nat)
    requires e.schemaVersion == SNAPSHOT_SCHEMA_VERSION && e.businessCount == 1 && ledger <= deadline
    ensures
      var a := Empty.(pending := map[caller := Token(fp(Stamps([e])), deadline)]);
      var b := Commit(a, fp, caller, [e], ledger);
      b.Some? && Lookup(b.value.snapshots, e.KeyOf()) == Some(e.record)
  {
    var a := Empty.(pending := map[caller := Token(fp(Stamps([e])), deadline)]);
    assert [e][..0] == [];
    assert CountOf([e], e.business) == 1;
    assert FirstDeclared([e], e.business) == Some(1);
    assert CountsAgree([e]);
    var start := a.(pending := a.pending - {caller});
    assert WriteEntries(start, [e]) == Put(start, e.KeyOf(), e.record);
  }

  /** The shortest such run: a record from the future, which no dry run would pass, is stored
      under the token of a harmless one. */
  lemma UncheckedRecordIsStored(fp: Fingerprint, caller: Address, good: Entry, bad: Entry, now: nat, ledger: nat)
    requires good.KeyOf() == bad.KeyOf() && |good.period| <= MAX_PERIOD_BYTES
    requires good.schemaVersion == bad.schemaVersion == SNAPSHOT_SCHEMA_VERSION && bad.businessCount == 1
    requires good.record.recordedAt <= now < bad.record.recordedAt
    requires ledger + RESTORE_COMMIT_WINDOW_LEDGERS <= U32_MAX
    ensures
      var r := After(fp, [DryRunCall(caller, [good], now, ledger), CommitCall(caller, [bad], ledger)]);
      Lookup(r.archive.snapshots, bad.KeyOf()) == Some(bad.record)
    ensures !Clean([bad], now)
  {
    assert !EntryClean([bad], 0, now);
    assert Stamps([good]) == Stamps([bad]);
    TwoCalls(fp, DryRunCall(caller, [good], now, ledger), CommitCall(caller, [bad], ledger));
    OneEntryDryRun(fp, caller, good, now, ledger);
    OneEntryCommit(fp, caller, bad, ledger, ledger + RESTORE_COMMIT_WINDOW_LEDGERS);
  }

  /** Over every run, what a successful commit stores: precisely its entries of unfinalized
      epochs; every other snapshot stays as it was. */
  lemma CommitStoresExactly(fp: Fingerprint, calls: seq<Call>, caller: Address, entries: seq<Entry>, ledger: nat,
                            k: Key)
    requires CollisionFree(fp)
    requires Commit(After(fp, calls).archive, fp, caller, entries, ledger).Some?
    ensures
      var a := After(fp, calls).archive;
      var b := Commit(a, fp, caller, entries, ledger).value;
      && (forall i :: Writes(a, entries, i, k) ==> Lookup(b.snapshots, k) == Some(entries[i].record))
      && ((forall i :: !Writes(a, entries, i, k)) ==> Lookup(b.snapshots, k) == Lookup(a.snapshots, k))
  {
    var a := After(fp, calls).archive;
    var start := a.(pending := a.pending - {caller});
    CommitUsesOneCleanDryRun(fp, calls, caller, entries, ledger);
    CommitWritesExactly(start, entries, k);
    assert forall i :: Writes(a, entries, i, k) <==> Writes(start, entries, i, k);
  }

  ghost predicate PeriodsFit(a: Archive) {
    forall k :: k in a.snapshots ==> |k.period| <= MAX_PERIOD_BYTES
  }

  /** A commit does not look at the length of a period again; the token vouches for it. */
  lemma CommitKeepsPeriodsFit(fp: Fingerprint, calls: seq<Call>, caller: Address, entries: seq<Entry>, ledger: nat)
    requires CollisionFree(fp) && PeriodsFit(After(fp, calls).archive)
    requires Commit(After(fp, calls).archive, fp, caller, entries, ledger).Some?
    ensures PeriodsFit(Commit(After(fp, calls).archive, fp, caller, entries, ledger).value)
  {
    var a := After(fp, calls).archive;
    var b := Commit(a, fp, caller, entries, ledger).value;
    CommitUsesOneCleanDryRun(fp, calls, caller, entries, ledger);
    var r := After(fp, calls);
    forall k | k in b.snapshots ensures |k.period| <= MAX_PERIOD_BYTES {
      CommitStoresExactly(fp, calls, caller, entries, ledger, k);
      if i :| Writes(a, entries, i, k) {
        assert EntryClean(r.dryRuns[caller].entries, i, r.dryRuns[caller].now);
        assert Stamps(entries)[i].key == Stamps(r.dryRuns[caller].entries)[i].key;
      }
    }
  }

  /** Over every run every stored period fits, restored ones included. */
  lemma {:induction false} EveryStoredPeriodFits(fp: Fingerprint, calls: seq<Call>)
    requires CollisionFree(fp)
    ensures PeriodsFit(After(fp, calls).archive)
  {
    if calls != [] {
      var front, call := calls[..|calls| - 1], calls[|calls| - 1];
      EveryStoredPeriodFits(fp, front);
      if call.CommitCall? && Apply(After(fp, front).archive, fp, call).Some? {
        CommitKeepsPeriodsFit(fp, front, call.caller, call.entries, call.ledger);
      }
    }
  }

  lemma ApplyFreezesFinalized(a: Archive, fp: Fingerprint, call: Call, epoch: Period)
    requires epoch in a.finalized && Apply(a, fp, call).Some?
    ensures EpochFrozen(a, Apply(a, fp, call).value, epoch)
  {
    match call
    case RecordCall(k, record, attested) => PutElsewhereIsFrozen(a, k, record, epoch);
    case FinalizeCall(_, _, _) =>
    case DryRunCall(_, _, _, _) =>
    case CommitCall(caller, entries, ledger) =>
      RestoreRespectsFinalization(a.(pending := a.pending - {caller}), entries, epoch);
  }

  /** Finalization is irreversible: whatever is called later, the epoch's metadata, business
      list and snapshots stay exactly what they were. */
  lemma {:induction false} FinalizedForever(fp: Fingerprint, calls: seq<Call>, more: seq<Call>, epoch: Period)
    requires epoch in After(fp, calls).archive.finalized
    ensures EpochFrozen(After(fp, calls).archive, After(fp, calls + more).archive, epoch)
  {
    if more == [] {
      assert calls + more == calls;
    } else {
      FinalizedForever(fp, calls, more[..|more| - 1], epoch);
      assert (calls + more)[..|calls + more| - 1] == calls + more[..|more| - 1];
      var before, call := After(fp, calls + more[..|more| - 1]).archive, more[|more| - 1];
      assert Lookup(before.finalized, epoch).Some?;
      if Apply(before, fp, call).Some? {
        ApplyFreezesFinalized(before, fp, call, epoch);
      }
    }
  }

  /* ---------- Entry points ---------- */

  method RestoreDryRun(c: SnapshotContract, fp: Fingerprint, caller: Address, entries: seq<Entry>, now: nat,
                       ledger: nat)
    returns (ok: bool, report: Report)
    modifies c`pending
    ensures Tx(ok,
      match DryRun(old(c.Model()), fp, caller, entries, now, ledger) { case None => None case Some(p) => Some(p.0) },
      old(c.Model()), c.Model())
    ensures ok ==> report == DryRun(old(c.Model()), fp, caller, entries, now, ledger).value.1
  {
    report := Report(0, 0, [], false, 0);
    if |entries| > MAX_RESTORE_BATCH {
      return false, report;
    }
    var violations: seq<Violation> := [];
    var seen: set<Key>, last: map<Address, nat> := {}, map[];
    for i := 0 to |entries|
      invariant SchemaOk(entries[..i])
      invariant Scan(seen, last, violations) == ScanAll(entries[..i], now)
      invariant |violations| <= i
    {
      var e := entries[i];
      assert entries[..i + 1][..i] == entries[..i];
      if e.schemaVersion != SNAPSHOT_SCHEMA_VERSION {
        return false, report;
      }
      if |e.period| > MAX_PERIOD_BYTES {
        violations := violations + [Violation(i, PeriodTooLong)];
        continue;
      }
      if e.record.recordedAt > now {
        violations := violations + [Violation(i, FromTheFuture)];
        continue;
      }
      if e.KeyOf() in seen {
        violations := violations + [Violation(i, DuplicateKey)];
        continue;
      }
      seen := seen + {e.KeyOf()};
      if e.business in last && e.record.recordedAt < last[e.business] {
        violations := violations + [Violation(i, GoesBackwards)];
      } else {
        last := last[e.business := e.record.recordedAt];
      }
    }
    assert entries[..|entries|] == entries;
    if violations == [] {
      if ledger + RESTORE_COMMIT_WINDOW_LEDGERS > U32_MAX {
        return false, report;
      }
      var deadline := ledger + RESTORE_COMMIT_WINDOW_LEDGERS;
      c.pending := c.pending[caller := Token(fp(Stamps(entries)), deadline)];
      return true, Report(|entries|, |entries|, [], true, deadline);
    }
    return true, Report(|entries|, SatSub(|entries|, |violations|), violations, false, 0);
  }

  /** Collects, in one pass, the businesses in order of first appearance with their declared
      and actual counts, then compares the two. */
  method CheckCounts(entries: seq<Entry>) returns (agree: bool)
    ensures agree == CountsAgree(entries)
  {
    var order: seq<Address>, declared: map<Address, nat>, actual: map<Address, nat> := [], map[], map[];
    for i := 0 to |entries|
      invariant forall b :: Lookup(declared, b) == FirstDeclared(entries[..i], b)
      invariant forall b :: Get(actual, b, 0) == CountOf(entries[..i], b)
      invariant forall b :: b in order <==> b in declared
      invariant forall j :: 0 <= j < i ==> entries[j].business in declared
      invariant forall b :: b in declared ==> exists j :: 0 <= j < i && entries[j].business == b
    {
      var e := entries[i];
      assert entries[..i + 1][..i] == entries[..i];
      if e.business !in declared {
        declared := declared[e.business := e.businessCount];
        order := order + [e.business];
      }
      actual := actual[e.business := Get(actual, e.business, 0) + 1];
      assert entries[i].business in declared;
    }
    assert entries[..|entries|] == entries;
    for i := 0 to |order|
      invariant forall j :: 0 <= j < i ==> declared[order[j]] == Get(actual, order[j], 0)
    {
      if declared[order[i]] != Get(actual, order[i], 0) {
        var j :| 0 <= j < |entries| && entries[j].business == order[i];
        assert Lookup(declared, order[i]) == FirstDeclared(entries, entries[j].business);
        return false;
      }
    }
    forall n | 0 <= n < |entries|
      ensures FirstDeclared(entries, entries[n].business) == Some(CountOf(entries, entries[n].business)) {
      assert entries[n].business in order;
      assert Lookup(declared, entries[n].business) == FirstDeclared(entries, entries[n].business);
    }
    return true;
  }

  method RestoreCommit(c: SnapshotContract, fp: Fingerprint, caller: Address, entries: seq<Entry>, ledger: nat)
    returns (ok: bool)
    modifies c
    ensures Tx(ok, Commit(old(c.Model()), fp, caller, entries, ledger), old(c.Model()), c.Model())
  {
    if caller !in c.pending {
      return false;
    }
    var before, token := c.Model(), c.pending[caller];
    if ledger > token.expiresAt || fp(Stamps(entries)) != token.batchHash {
      return false;
    }
    for i := 0 to |entries|
      invariant SchemaOk(entries[..i])
    {
      if entries[i].schemaVersion != SNAPSHOT_SCHEMA_VERSION {
        return false;
      }
    }
    assert entries[..|entries|] == entries;
    var agree := CheckCounts(entries);
    if !agree {
      return false;
    }
    c.pending := c.pending - {caller};
    ok := WriteUnfinalized(c, entries);
    if ok {
      c.lastRestore := Some(token.batchHash);
    } else {
      c.Rollback(before);
    }
  }

  /** Writes the entries of epochs that are not finalized. On an abort the caller rolls back. */
  method WriteUnfinalized(c: SnapshotContract, entries: seq<Entry>) returns (ok: bool)
    modifies c
    ensures
      var next := WriteEntries(old(c.Model()), entries);
      ok == next.Some? && (ok ==> next == Some(c.Model()))
  {
    ghost var start := c.Model();
    for i := 0 to |entries|
      invariant WriteEntries(start, entries[..i]) == Some(c.Model())
    {
      var e := entries[i];
      assert entries[..i + 1][..i] == entries[..i];
      if e.period !in c.finalized {
        ok := c.PutSnapshot(e.KeyOf(), e.record);
        if !ok {
          WriteFailsForGood(start, entries, i + 1);
          return;
        }
      }
    }
    assert entries[..|entries|] == entries;
    ok := true;
  }

  lemma {:induction false} WriteFailsForGood(a: Archive, entries: seq<Entry>, n: nat)
    requires n <= |entries| && WriteEntries(a, entries[..n]).None?
    ensures WriteEntries(a, entries).None?
    decreases |entries|
  {
    if n == |entries| {
      assert entries[..n] == entries;
    } else {
      assert entries[..|entries| - 1][..n] == entries[..n];
      WriteFailsForGood(a, entries[..|entries| - 1], n);
    }
  }
}
