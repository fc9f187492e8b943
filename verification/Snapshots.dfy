/** Storage of the attestation snapshot contract (contracts/attestation-snapshot/src/lib.rs):
    snapshots, the two per-key indexes, the global epoch list and irreversible finalization.
 */
module Snapshots {
  import opened Base

  const MAX_PERIOD_BYTES: nat := 128
  const MAX_BUSINESS_PERIODS: nat := 512
  const MAX_EPOCH_BUSINESSES: nat := 512

  datatype SnapshotRecord = SnapshotRecord(
    period: Period,
    trailingRevenue: int,
    anomalyCount: nat,
    attestationCount: nat,
    recordedAt: nat)

  datatype Finalization = Finalization(epoch: Period, snapshotCount: nat, finalizedAt: nat, finalizedBy: Address)

  /** What a dry run leaves for the commit that follows it. */
  datatype Token = Token(batchHash: Hash, expiresAt: nat)

  datatype Archive = Archive(
    snapshots: map<Key, SnapshotRecord>,
    businessPeriods: map<Address, seq<Period>>,
    epochBusinesses: map<Period, seq<Address>>,
    allEpochs: seq<Period>,
    finalized: map<Period, Finalization>,
    pending: map<Address, Token>,
    lastRestore: Option<Hash>)
  {
    function Periods(b: Address): seq<Period> {
      Get(businessPeriods, b, [])
    }

    function Businesses(p: Period): seq<Address> {
      Get(epochBusinesses, p, [])
    }
  }

  const Empty := Archive(map[], map[], map[], [], map[], map[], None)

  /* ---------- Specification of the operations ---------- */

  /** Adding to an index is idempotent; a full index refuses a new element. */
  function AddTo<T(==)>(list: seq<T>, x: T, limit: nat): Option<seq<T>> {
    if x in list then Some(list)
    else if |list| >= limit then None
    else Some(list + [x])
  }

  /** Writes one snapshot and both per-key indexes. */
  function Put(a: Archive, k: Key, r: SnapshotRecord): Option<Archive> {
    match (AddTo(a.Periods(k.business), k.period, MAX_BUSINESS_PERIODS),
           AddTo(a.Businesses(k.period), k.business, MAX_EPOCH_BUSINESSES))
    case (Some(periods), Some(businesses)) =>
      Some(a.(
        snapshots := a.snapshots[k := r],
        businessPeriods := a.businessPeriods[k.business := periods],
        epochBusinesses := a.epochBusinesses[k.period := businesses]))
    case _ => None
  }

  /** `attested` is the verdict of the attestation contract, when one is bound: a live,
      unrevoked attestation exists for this key. */
  function RecordSnapshot(a: Archive, k: Key, r: SnapshotRecord, attested: bool): Option<Archive> {
    if |k.period| > MAX_PERIOD_BYTES || k.period in a.finalized || !attested then None
    else
      match Put(a, k, r)
      case None => None
      case Some(b) =>
        Some(if k.period in b.allEpochs then b else b.(allEpochs := b.allEpochs + [k.period]))
  }

  function FinalizeEpoch(a: Archive, caller: Address, epoch: Period, now: nat): Option<Archive> {
    if |epoch| > MAX_PERIOD_BYTES || epoch in a.finalized || a.Businesses(epoch) == [] then None
    else Some(a.(finalized := a.finalized[epoch := Finalization(epoch, |a.Businesses(epoch)|, now, caller)]))
  }

  /* ---------- The invariant ---------- */

  ghost predicate IndexOk(a: Archive, b: Address, p: Period) {
    && (Key(b, p) in a.snapshots <==> p in a.Periods(b))
    && (Key(b, p) in a.snapshots <==> b in a.Businesses(p))
  }

  ghost predicate ListsOk(a: Archive) {
    && (forall b :: Distinct(a.Periods(b)) && |a.Periods(b)| <= MAX_BUSINESS_PERIODS)
    && (forall p :: Distinct(a.Businesses(p)) && |a.Businesses(p)| <= MAX_EPOCH_BUSINESSES)
    && Distinct(a.allEpochs)
  }

  ghost predicate FinalizedOk(a: Archive) {
    forall e :: e in a.finalized ==> a.finalized[e].snapshotCount == |a.Businesses(e)| >= 1
  }

  /** The three redundant views agree, lists have no duplicates and stay bounded, and a
      finalized count is the number of snapshots of its epoch. */
  ghost predicate Inv(a: Archive) {
    && (forall b, p :: IndexOk(a, b, p))
    && ListsOk(a)
    && FinalizedOk(a)
  }

  lemma AddToKeeps<T>(list: seq<T>, x: T, limit: nat)
    requires Distinct(list) && |list| <= limit && AddTo(list, x, limit).Some?
    ensures
      var longer := AddTo(list, x, limit).value;
      Distinct(longer) && |longer| <= limit && (forall y :: y in longer <==> y in list || y == x)
  {
  }

  lemma PutKeepsInv(a: Archive, k: Key, r: SnapshotRecord)
    requires Inv(a) && Put(a, k, r).Some? && k.period !in a.finalized
    ensures Inv(Put(a, k, r).value)
  {
    var next := Put(a, k, r).value;
    AddToKeeps(a.Periods(k.business), k.period, MAX_BUSINESS_PERIODS);
    AddToKeeps(a.Businesses(k.period), k.business, MAX_EPOCH_BUSINESSES);
    forall b, p ensures IndexOk(next, b, p) {
      assert IndexOk(a, b, p);
    }
    assert ListsOk(next) by {
      assert forall b :: b != k.business ==> next.Periods(b) == a.Periods(b);
      assert forall p :: p != k.period ==> next.Businesses(p) == a.Businesses(p);
    }
  }

  lemma RecordKeepsInv(a: Archive, k: Key, r: SnapshotRecord, attested: bool)
    requires Inv(a) && RecordSnapshot(a, k, r, attested).Some?
    ensures Inv(RecordSnapshot(a, k, r, attested).value)
  {
    PutKeepsInv(a, k, r);
    SameIndexesKeepInv(Put(a, k, r).value, RecordSnapshot(a, k, r, attested).value);
  }

  /** Everything the invariant looks at, apart from the epoch list, is untouched. */
  lemma SameIndexesKeepInv(a: Archive, b: Archive)
    requires Inv(a)
    requires b.snapshots == a.snapshots && b.businessPeriods == a.businessPeriods
    requires b.epochBusinesses == a.epochBusinesses && b.finalized == a.finalized
    requires Distinct(b.allEpochs)
    ensures Inv(b)
  {
    forall x, p ensures IndexOk(b, x, p) {
      assert IndexOk(a, x, p);
    }
    assert forall x :: b.Periods(x) == a.Periods(x);
    assert forall p :: b.Businesses(p) == a.Businesses(p);
  }

  lemma FinalizeKeepsInv(a: Archive, caller: Address, epoch: Period, now: nat)
    requires Inv(a) && FinalizeEpoch(a, caller, epoch, now).Some?
    ensures Inv(FinalizeEpoch(a, caller, epoch, now).value)
  {
    var next := FinalizeEpoch(a, caller, epoch, now).value;
    assert forall x :: next.Periods(x) == a.Periods(x);
    assert forall p :: next.Businesses(p) == a.Businesses(p);
    forall x, p ensures IndexOk(next, x, p) {
      assert IndexOk(a, x, p);
    }
  }

  /* ---------- When the operations commit ---------- */

  /** Exactly when a snapshot is recorded: its period fits and is not finalized, the attestation
      is live, and unless the snapshot replaces one, both its lists have room. */
  lemma RecordCommitsIff(a: Archive, k: Key, r: SnapshotRecord, attested: bool)
    requires Inv(a)
    ensures RecordSnapshot(a, k, r, attested).Some? <==>
              && |k.period| <= MAX_PERIOD_BYTES && k.period !in a.finalized && attested
              && (k in a.snapshots ||
                  (|a.Periods(k.business)| < MAX_BUSINESS_PERIODS && |a.Businesses(k.period)| < MAX_EPOCH_BUSINESSES))
    ensures RecordSnapshot(a, k, r, attested).Some? ==>
              var b := RecordSnapshot(a, k, r, attested).value;
              && b.snapshots == a.snapshots[k := r]
              && b.allEpochs == (if k.period in a.allEpochs then a.allEpochs else a.allEpochs + [k.period])
              && b.finalized == a.finalized && b.pending == a.pending
  {
    assert k == Key(k.business, k.period) && IndexOk(a, k.business, k.period);
  }

  /** Exactly when an epoch is finalized: once, and only if it has a snapshot. */
  lemma FinalizeCommitsIff(a: Archive, caller: Address, epoch: Period, now: nat)
    requires Inv(a)
    ensures FinalizeEpoch(a, caller, epoch, now).Some? <==>
              && |epoch| <= MAX_PERIOD_BYTES && epoch !in a.finalized
              && exists x :: Key(x, epoch) in a.snapshots
    ensures FinalizeEpoch(a, caller, epoch, now).Some? ==>
              var b := FinalizeEpoch(a, caller, epoch, now).value;
              && b.finalized.Keys == a.finalized.Keys + {epoch}
              && b.finalized[epoch].epoch == epoch
              && b.finalized[epoch].finalizedAt == now && b.finalized[epoch].finalizedBy == caller
              && b.snapshots == a.snapshots
  {
    var bs := a.Businesses(epoch);
    if bs != [] {
      assert IndexOk(a, bs[0], epoch) && bs[0] in bs;
    }
    if x :| Key(x, epoch) in a.snapshots {
      assert IndexOk(a, x, epoch);
    }
  }

  /* ---------- What finalization freezes ---------- */

  /** From `a` to `b` nothing about a finalized epoch has changed: not its metadata, not its
      business list, not any of its snapshots, present or absent. */
  ghost predicate EpochFrozen(a: Archive, b: Archive, epoch: Period) {
    && Lookup(b.finalized, epoch) == Lookup(a.finalized, epoch)
    && b.Businesses(epoch) == a.Businesses(epoch)
    && forall x :: Lookup(b.snapshots, Key(x, epoch)) == Lookup(a.snapshots, Key(x, epoch))
  }

  lemma PutElsewhereIsFrozen(a: Archive, k: Key, r: SnapshotRecord, epoch: Period)
    requires Put(a, k, r).Some? && k.period != epoch
    ensures EpochFrozen(a, Put(a, k, r).value, epoch)
  {
  }

  /** The finalized count is the number of live snapshots of the epoch. */
  lemma FinalizedCountIsExact(a: Archive, epoch: Period)
    requires Inv(a) && epoch in a.finalized
    ensures a.finalized[epoch].snapshotCount == |set k | k in a.snapshots && k.period == epoch|
  {
    var live := set k | k in a.snapshots && k.period == epoch;
    var bs := a.Businesses(epoch);
    DistinctSize(bs);
    forall x ensures x in Elements(bs) <==> Key(x, epoch) in live {
      assert IndexOk(a, x, epoch);
    }
    KeySetSize(live, Elements(bs), epoch);
  }

  lemma {:induction false} KeySetSize(keys: set<Key>, bs: set<Address>, epoch: Period)
    requires forall k :: k in keys ==> k.period == epoch
    requires forall x :: x in bs <==> Key(x, epoch) in keys
    ensures |keys| == |bs|
  {
    if bs == {} {
      assert forall k :: k in keys ==> k == Key(k.business, epoch);
      assert keys == {};
    } else {
      var x :| x in bs;
      KeySetSize(keys - {Key(x, epoch)}, bs - {x}, epoch);
    }
  }

  /* ---------- The contract's storage and entry points ---------- */

  class SnapshotContract {
    var snapshots: map<Key, SnapshotRecord>
    var businessPeriods: map<Address, seq<Period>>
    var epochBusinesses: map<Period, seq<Address>>
    var allEpochs: seq<Period>
    var finalized: map<Period, Finalization>
    var pending: map<Address, Token>
    var lastRestore: Option<Hash>

    function Model(): Archive
      reads this
    {
      Archive(snapshots, businessPeriods, epochBusinesses, allEpochs, finalized, pending, lastRestore)
    }

    constructor ()
      ensures Model() == Empty
    {
      snapshots, businessPeriods, epochBusinesses := map[], map[], map[];
      allEpochs, finalized, pending, lastRestore := [], map[], map[], None;
    }

    /** Puts the storage back to how it was; the host does this when a call aborts. */
    method Rollback(a: Archive)
      modifies this
      ensures Model() == a
    {
      snapshots, businessPeriods, epochBusinesses := a.snapshots, a.businessPeriods, a.epochBusinesses;
      allEpochs, finalized, pending, lastRestore := a.allEpochs, a.finalized, a.pending, a.lastRestore;
    }

    method IndexPeriodForBusiness(b: Address, p: Period) returns (ok: bool)
      modifies this`businessPeriods
      ensures ok == AddTo(old(Model()).Periods(b), p, MAX_BUSINESS_PERIODS).Some?
      ensures ok ==> businessPeriods == old(businessPeriods)[b :=
        AddTo(old(Model()).Periods(b), p, MAX_BUSINESS_PERIODS).value]
      ensures !ok ==> businessPeriods == old(businessPeriods)
    {
      var periods := Get(businessPeriods, b, []);
      for i := 0 to |periods|
        invariant p !in periods[..i]
      {
        if periods[i] == p {
          assert businessPeriods[b := periods] == businessPeriods;
          return true;
        }
      }
      assert periods[..|periods|] == periods;
      ok := |periods| < MAX_BUSINESS_PERIODS;
      if ok {
        businessPeriods := businessPeriods[b := periods + [p]];
      }
    }

    method IndexBusinessForEpoch(p: Period, b: Address) returns (ok: bool)
      modifies this`epochBusinesses
      ensures ok == AddTo(old(Model()).Businesses(p), b, MAX_EPOCH_BUSINESSES).Some?
      ensures ok ==> epochBusinesses == old(epochBusinesses)[p :=
        AddTo(old(Model()).Businesses(p), b, MAX_EPOCH_BUSINESSES).value]
      ensures !ok ==> epochBusinesses == old(epochBusinesses)
    {
      var businesses := Get(epochBusinesses, p, []);
      for i := 0 to |businesses|
        invariant b !in businesses[..i]
      {
        if businesses[i] == b {
          assert epochBusinesses[p := businesses] == epochBusinesses;
          return true;
        }
      }
      assert businesses[..|businesses|] == businesses;
      ok := |businesses| < MAX_EPOCH_BUSINESSES;
      if ok {
        epochBusinesses := epochBusinesses[p := businesses + [b]];
      }
    }

    method IndexEpochGlobally(p: Period)
      modifies this`allEpochs
      ensures allEpochs == if p in old(allEpochs) then old(allEpochs) else old(allEpochs) + [p]
    {
      for i := 0 to |allEpochs|
        invariant p !in allEpochs[..i]
        invariant allEpochs == old(allEpochs)
      {
        if allEpochs[i] == p {
          return;
        }
      }
      assert allEpochs[..|allEpochs|] == allEpochs;
      allEpochs := allEpochs + [p];
    }

    /** The writes shared by recording and restoring. On failure some of them may have
        happened; the caller aborts and rolls back. */
    method PutSnapshot(k: Key, r: SnapshotRecord) returns (ok: bool)
      modifies this`snapshots, this`businessPeriods, this`epochBusinesses
      ensures ok == Put(old(Model()), k, r).Some?
      ensures ok ==> Model() == Put(old(Model()), k, r).value
    {
      snapshots := snapshots[k := r];
      ok := IndexPeriodForBusiness(k.business, k.period);
      if ok {
        ok := IndexBusinessForEpoch(k.period, k.business);
      }
    }

    method Record(k: Key, trailingRevenue: int, anomalyCount: nat, attestationCount: nat, now: nat, attested: bool)
      returns (ok: bool)
      modifies this
      ensures Tx(ok,
        RecordSnapshot(old(Model()), k,
          SnapshotRecord(k.period, trailingRevenue, anomalyCount, attestationCount, now), attested),
        old(Model()), Model())
    {
      if |k.period| > MAX_PERIOD_BYTES || k.period in finalized || !attested {
        return false;
      }
      var before := Model();
      ok := PutSnapshot(k, SnapshotRecord(k.period, trailingRevenue, anomalyCount, attestationCount, now));
      if !ok {
        Rollback(before);
        return false;
      }
      IndexEpochGlobally(k.period);
    }

    method Finalize(caller: Address, epoch: Period, now: nat) returns (ok: bool)
      modifies this`finalized
      ensures Tx(ok, FinalizeEpoch(old(Model()), caller, epoch, now), old(Model()), Model())
    {
      if |epoch| > MAX_PERIOD_BYTES || epoch in finalized {
        return false;
      }
      var count := |Get(epochBusinesses, epoch, [])|;
      if count == 0 {
        return false;
      }
      finalized := finalized[epoch := Finalization(epoch, count, now, caller)];
      return true;
    }

    /** All live records of a business, in index order. */
    method GetSnapshotsForBusiness(b: Address) returns (out: seq<SnapshotRecord>)
      requires Inv(Model())
      ensures |out| == |Model().Periods(b)|
      ensures forall i :: 0 <= i < |out| ==>
        Key(b, Model().Periods(b)[i]) in snapshots && out[i] == snapshots[Key(b, Model().Periods(b)[i])]
    {
      var periods := Get(businessPeriods, b, []);
      out := [];
      for i := 0 to |periods|
        invariant |out| == i
        invariant forall j :: 0 <= j < i ==>
          Key(b, periods[j]) in snapshots && out[j] == snapshots[Key(b, periods[j])]
      {
        assert IndexOk(Model(), b, periods[i]);
        if Key(b, periods[i]) in snapshots {
          out := out + [snapshots[Key(b, periods[i])]];
        }
      }
    }
  }
}
