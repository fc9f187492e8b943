/** The exported commitment of the snapshot contract
    (contracts/attestation-snapshot/src/lib.rs, `export_commitment_with_count`): walk all
    epochs, their businesses and those businesses' periods, encode every record found, sort
    the encodings, and hash their concatenation.

    The canonical encoding of a record is a parameter.
 */
module SnapshotExport {
  import opened Base
  import opened Snapshots
  import Restore = SnapshotRestore

  type byte = b: nat | b < 256

  type Bytes = seq<byte>

  type Canon = SnapshotRecord -> Bytes

  /* ---------- Byte order ---------- */

  predicate LexLe(a: Bytes, b: Bytes) {
    if a == [] then true
    else if b == [] then false
    else a[0] < b[0] || (a[0] == b[0] && LexLe(a[1..], b[1..]))
  }

  lemma {:induction false} LexTotal(a: Bytes, b: Bytes)
    ensures LexLe(a, b) || LexLe(b, a)
  {
    if a != [] && b != [] {
      LexTotal(a[1..], b[1..]);
    }
  }

  lemma {:induction false} LexAntisymmetric(a: Bytes, b: Bytes)
    requires LexLe(a, b) && LexLe(b, a)
    ensures a == b
  {
    if a != [] && b != [] {
      LexAntisymmetric(a[1..], b[1..]);
      assert a == [a[0]] + a[1..] && b == [b[0]] + b[1..];
    }
  }

  lemma {:induction false} LexTransitive(a: Bytes, b: Bytes, c: Bytes)
    requires LexLe(a, b) && LexLe(b, c)
    ensures LexLe(a, c)
  {
    if a != [] && b != [] && c != [] && a[0] == b[0] == c[0] {
      LexTransitive(a[1..], b[1..], c[1..]);
    }
  }

  /** `a` comes before `b` at position `k`, the first at which they differ. */
  ghost predicate LessAt(a: Bytes, b: Bytes, k: nat) {
    k < |a| && k < |b| && a[..k] == b[..k] && a[k] < b[k]
  }

  /** The order of byte strings: a prefix comes first, and otherwise the smaller byte decides
      where the two differ for the first time. */
  lemma {:induction false} LexMeaning(a: Bytes, b: Bytes)
    ensures LexLe(a, b) <==> a <= b || exists k: nat :: LessAt(a, b, k)
  {
    if a != [] && b != [] {
      if a[0] != b[0] {
        assert a[0] < b[0] ==> LessAt(a, b, 0);
        assert forall k: nat :: LessAt(a, b, k) ==> k == 0;
      } else {
        LexMeaning(a[1..], b[1..]);
        assert a == [a[0]] + a[1..] && b == [b[0]] + b[1..];
        forall k: nat ensures LessAt(a, b, k + 1) <==> LessAt(a[1..], b[1..], k) {
          LessAtNext(a, b, k);
        }
        if k: nat :| LessAt(a, b, k) {
          assert k != 0;
          assert LessAt(a[1..], b[1..], k - 1);
        }
        if k: nat :| LessAt(a[1..], b[1..], k) {
          assert LessAt(a, b, k + 1);
        }
      }
    }
  }

  lemma LessAtNext(a: Bytes, b: Bytes, k: nat)
    requires a != [] && b != [] && a[0] == b[0]
    ensures LessAt(a, b, k + 1) <==> LessAt(a[1..], b[1..], k)
  {
    if k < |a| - 1 && k < |b| - 1 {
      assert a[..k + 1] == [a[0]] + a[1..][..k] && b[..k + 1] == [b[0]] + b[1..][..k];
    }
  }

  /* ---------- Sorting ---------- */

  function InsertLex(xs: seq<Bytes>, x: Bytes): seq<Bytes> {
    if xs == [] then [x]
    else if LexLe(xs[|xs| - 1], x) then xs + [x]
    else InsertLex(xs[..|xs| - 1], x) + [xs[|xs| - 1]]
  }

  function SortLex(xs: seq<Bytes>): seq<Bytes> {
    if xs == [] then [] else InsertLex(SortLex(xs[..|xs| - 1]), xs[|xs| - 1])
  }

  ghost predicate SortedLex(xs: seq<Bytes>) {
    forall i, j :: 0 <= i < j < |xs| ==> LexLe(xs[i], xs[j])
  }

  lemma {:induction false} InsertPermutes(xs: seq<Bytes>, x: Bytes)
    ensures multiset(InsertLex(xs, x)) == multiset(xs) + multiset{x}
    ensures |InsertLex(xs, x)| == |xs| + 1
  {
    if xs != [] && !LexLe(xs[|xs| - 1], x) {
      InsertPermutes(xs[..|xs| - 1], x);
      assert xs == xs[..|xs| - 1] + [xs[|xs| - 1]];
    }
  }

  lemma {:induction false} InsertKeepsSorted(xs: seq<Bytes>, x: Bytes)
    requires SortedLex(xs)
    ensures SortedLex(InsertLex(xs, x))
  {
    if xs != [] {
      var front, last := xs[..|xs| - 1], xs[|xs| - 1];
      if LexLe(last, x) {
        forall i | 0 <= i < |xs| ensures LexLe(xs[i], x) {
          if i < |xs| - 1 {
            LexTransitive(xs[i], last, x);
          }
        }
      } else {
        InsertKeepsSorted(front, x);
        LexTotal(last, x);
        var ys := InsertLex(front, x);
        forall i | 0 <= i < |ys| ensures LexLe(ys[i], last) {
          InsertPermutes(front, x);
          assert ys[i] in multiset(ys);
          if ys[i] != x {
            assert ys[i] in front;
            var n :| 0 <= n < |front| && front[n] == ys[i];
            assert LexLe(xs[n], xs[|xs| - 1]);
          }
        }
      }
    }
  }

  lemma {:induction false} SortIsSorted(xs: seq<Bytes>)
    ensures SortedLex(SortLex(xs))
  {
    if xs != [] {
      SortIsSorted(xs[..|xs| - 1]);
      InsertKeepsSorted(SortLex(xs[..|xs| - 1]), xs[|xs| - 1]);
    }
  }

  lemma {:induction false} SortPermutes(xs: seq<Bytes>)
    ensures multiset(SortLex(xs)) == multiset(xs)
  {
    if xs != [] {
      var front, last := xs[..|xs| - 1], xs[|xs| - 1];
      SortPermutes(front);
      InsertPermutes(SortLex(front), last);
      assert xs == front + [last];
    }
  }

  lemma SortIsSortedPermutation(xs: seq<Bytes>)
    ensures SortedLex(SortLex(xs)) && multiset(SortLex(xs)) == multiset(xs)
  {
    SortIsSorted(xs);
    SortPermutes(xs);
  }

  lemma LastIsGreatest(xs: seq<Bytes>, x: Bytes)
    requires SortedLex(xs) && x in xs
    ensures LexLe(x, xs[|xs| - 1])
  {
    LexTotal(x, x);
  }

  lemma DropLast<T>(xs: seq<T>)
    requires xs != []
    ensures multiset(xs[..|xs| - 1]) == multiset(xs) - multiset{xs[|xs| - 1]}
  {
    assert xs == xs[..|xs| - 1] + [xs[|xs| - 1]];
  }

  lemma LastsAgree(xs: seq<Bytes>, ys: seq<Bytes>)
    requires SortedLex(xs) && SortedLex(ys) && multiset(xs) == multiset(ys) && xs != []
    ensures ys != [] && xs[|xs| - 1] == ys[|ys| - 1]
  {
    assert xs[|xs| - 1] in multiset(ys);
    assert ys[|ys| - 1] in multiset(xs);
    LastIsGreatest(ys, xs[|xs| - 1]);
    LastIsGreatest(xs, ys[|ys| - 1]);
    LexAntisymmetric(xs[|xs| - 1], ys[|ys| - 1]);
  }

  /** A sorted sequence is determined by its elements. */
  lemma {:induction false} SortedIsUnique(xs: seq<Bytes>, ys: seq<Bytes>)
    requires SortedLex(xs) && SortedLex(ys) && multiset(xs) == multiset(ys)
    ensures xs == ys
  {
    if xs == [] {
      assert |ys| == |multiset(ys)| == |multiset(xs)| == 0;
    } else {
      LastsAgree(xs, ys);
      DropLast(xs);
      DropLast(ys);
      SortedIsUnique(xs[..|xs| - 1], ys[..|ys| - 1]);
    }
  }

  /* ---------- What is exported ---------- */

  function BusinessKeys(a: Archive, b: Address, periods: seq<Period>): seq<Key> {
    if periods == [] then []
    else
      var p := periods[|periods| - 1];
      BusinessKeys(a, b, periods[..|periods| - 1]) + if Key(b, p) in a.snapshots then [Key(b, p)] else []
  }

  function EpochKeys(a: Archive, bs: seq<Address>): seq<Key> {
    if bs == [] then []
    else EpochKeys(a, bs[..|bs| - 1]) + BusinessKeys(a, bs[|bs| - 1], a.Periods(bs[|bs| - 1]))
  }

  function ExportKeys(a: Archive, epochs: seq<Period>): seq<Key> {
    if epochs == [] then []
    else ExportKeys(a, epochs[..|epochs| - 1]) + EpochKeys(a, a.Businesses(epochs[|epochs| - 1]))
  }

  function Encode(a: Archive, canon: Canon, keys: seq<Key>): seq<Bytes> {
    if keys == [] then []
    else
      var k := keys[|keys| - 1];
      Encode(a, canon, keys[..|keys| - 1]) + if k in a.snapshots then [canon(a.snapshots[k])] else []
  }

  function Concat(xs: seq<Bytes>): Bytes {
    if xs == [] then [] else Concat(xs[..|xs| - 1]) + xs[|xs| - 1]
  }

  function ExportEntries(a: Archive, canon: Canon): seq<Bytes> {
    SortLex(Encode(a, canon, ExportKeys(a, a.allEpochs)))
  }

  function ExportBody(a: Archive, canon: Canon): Bytes {
    Concat(ExportEntries(a, canon))
  }

  /* ---------- How often each record is exported ---------- */

  /** The listed epochs under which business `b` is visited. */
  function Visits(a: Archive, epochs: seq<Period>, b: Address): seq<Period> {
    if epochs == [] then []
    else
      Visits(a, epochs[..|epochs| - 1], b)
      + if b in a.Businesses(epochs[|epochs| - 1]) then [epochs[|epochs| - 1]] else []
  }

  lemma {:induction false} BusinessMultiplicity(a: Archive, b: Address, periods: seq<Period>, k: Key)
    requires Distinct(periods)
    ensures multiset(BusinessKeys(a, b, periods))[k]
         == if k.business == b && k in a.snapshots && k.period in periods then 1 else 0
  {
    if periods != [] {
      var front := periods[..|periods| - 1];
      BusinessMultiplicity(a, b, front, k);
      assert periods == front + [periods[|periods| - 1]];
    }
  }

  lemma {:induction false} EpochMultiplicity(a: Archive, bs: seq<Address>, k: Key)
    requires Inv(a) && Distinct(bs)
    ensures multiset(EpochKeys(a, bs))[k] == if k in a.snapshots && k.business in bs then 1 else 0
  {
    if bs != [] {
      var front, b := bs[..|bs| - 1], bs[|bs| - 1];
      EpochMultiplicity(a, front, k);
      BusinessMultiplicity(a, b, a.Periods(b), k);
      assert IndexOk(a, k.business, k.period);
      assert bs == front + [b];
    }
  }

  /** In every reachable archive each live record is exported once per listed epoch under which
      its business is visited, and nothing else is exported. */
  lemma {:induction false} ExportMultiplicity(a: Archive, epochs: seq<Period>, k: Key)
    requires Inv(a)
    ensures multiset(ExportKeys(a, epochs))[k] == if k in a.snapshots then |Visits(a, epochs, k.business)| else 0
  {
    if epochs != [] {
      var front, e := epochs[..|epochs| - 1], epochs[|epochs| - 1];
      ExportMultiplicity(a, front, k);
      EpochMultiplicity(a, a.Businesses(e), k);
    }
  }

  lemma {:induction false} VisitsMeaning(a: Archive, epochs: seq<Period>, b: Address)
    requires Inv(a) && Distinct(epochs)
    ensures Distinct(Visits(a, epochs, b))
    ensures forall e :: e in Visits(a, epochs, b) <==> e in epochs && e in a.Periods(b)
  {
    if epochs != [] {
      var front, e := epochs[..|epochs| - 1], epochs[|epochs| - 1];
      VisitsMeaning(a, front, b);
      assert IndexOk(a, b, e);
      assert epochs == front + [e];
      assert e !in front;
    }
  }

  /** The export is complete exactly when every live snapshot's period is a listed epoch: then,
      and only then, each record occurs once per period of its business. */
  lemma ExportCompleteIff(a: Archive)
    requires Inv(a)
    ensures
      (forall k :: k in a.snapshots ==>
        multiset(ExportKeys(a, a.allEpochs))[k] == |a.Periods(k.business)|)
      <==> (forall k :: k in a.snapshots ==> k.period in a.allEpochs)
  {
    forall k | k in a.snapshots
      ensures multiset(ExportKeys(a, a.allEpochs))[k] == |Visits(a, a.allEpochs, k.business)| {
      ExportMultiplicity(a, a.allEpochs, k);
    }
    if forall k :: k in a.snapshots ==> k.period in a.allEpochs {
      forall k | k in a.snapshots ensures |Visits(a, a.allEpochs, k.business)| == |a.Periods(k.business)| {
        AllPeriodsVisited(a, k.business);
      }
    }
    if k :| k in a.snapshots && k.period !in a.allEpochs {
      MissedPeriodLowersTheCount(a, k);
    }
  }

  lemma AllPeriodsVisited(a: Archive, b: Address)
    requires Inv(a) && (forall k :: k in a.snapshots ==> k.period in a.allEpochs)
    ensures |Visits(a, a.allEpochs, b)| == |a.Periods(b)|
  {
    VisitsMeaning(a, a.allEpochs, b);
    forall p ensures p in a.Periods(b) <==> p in Visits(a, a.allEpochs, b) {
      assert IndexOk(a, b, p);
    }
    SameElementsSameSize(a.Periods(b), Visits(a, a.allEpochs, b));
  }

  lemma MissedPeriodLowersTheCount(a: Archive, k: Key)
    requires Inv(a) && k in a.snapshots && k.period !in a.allEpochs
    ensures |Visits(a, a.allEpochs, k.business)| < |a.Periods(k.business)|
  {
    var visited, periods := Visits(a, a.allEpochs, k.business), a.Periods(k.business);
    VisitsMeaning(a, a.allEpochs, k.business);
    assert IndexOk(a, k.business, k.period);
    DistinctSize(visited + [k.period]);
    DistinctSize(periods);
    assert Elements(visited + [k.period]) <= Elements(periods);
    SubsetSize(Elements(visited + [k.period]), Elements(periods));
  }

  /* ---------- Order independence ---------- */

  lemma {:induction false} EncodeConcat(a: Archive, canon: Canon, xs: seq<Key>, ys: seq<Key>)
    ensures Encode(a, canon, xs + ys) == Encode(a, canon, xs) + Encode(a, canon, ys)
  {
    if ys == [] {
      assert xs + ys == xs;
    } else {
      assert (xs + ys)[..|xs + ys| - 1] == xs + ys[..|ys| - 1];
      EncodeConcat(a, canon, xs, ys[..|ys| - 1]);
    }
  }

  lemma EncodeTakeOut(a: Archive, canon: Canon, xs: seq<Key>, i: nat)
    requires i < |xs|
    ensures multiset(xs[..i] + xs[i + 1..]) == multiset(xs) - multiset{xs[i]}
    ensures multiset(Encode(a, canon, xs))
         == multiset(Encode(a, canon, xs[..i] + xs[i + 1..])) + multiset(Encode(a, canon, [xs[i]]))
  {
    assert xs == xs[..i] + [xs[i]] + xs[i + 1..];
    EncodeConcat(a, canon, xs[..i], [xs[i]]);
    EncodeConcat(a, canon, xs[..i] + [xs[i]], xs[i + 1..]);
    EncodeConcat(a, canon, xs[..i], xs[i + 1..]);
  }

  lemma {:induction false} EncodePermutes(a: Archive, canon: Canon, xs: seq<Key>, ys: seq<Key>)
    requires multiset(xs) == multiset(ys)
    ensures multiset(Encode(a, canon, xs)) == multiset(Encode(a, canon, ys))
  {
    if xs == [] {
      assert |ys| == |multiset(ys)| == |multiset(xs)| == 0;
    } else {
      assert xs[0] in multiset(ys);
      var i :| 0 <= i < |ys| && ys[i] == xs[0];
      EncodeTakeOut(a, canon, xs, 0);
      EncodeTakeOut(a, canon, ys, i);
      EncodePermutes(a, canon, xs[..0] + xs[1..], ys[..i] + ys[i + 1..]);
    }
  }

  lemma {:induction false} EncodeSameSnapshots(a: Archive, b: Archive, canon: Canon, keys: seq<Key>)
    requires a.snapshots == b.snapshots
    ensures Encode(a, canon, keys) == Encode(b, canon, keys)
  {
    if keys != [] {
      EncodeSameSnapshots(a, b, canon, keys[..|keys| - 1]);
    }
  }

  /** Two archives that hold the same snapshots, all of listed epochs, export the same bytes,
      whatever order their indexes and epoch lists were built in. */
  lemma ExportIsOrderIndependent(a: Archive, b: Archive, canon: Canon)
    requires Inv(a) && Inv(b) && a.snapshots == b.snapshots
    requires forall k :: k in a.snapshots ==> k.period in a.allEpochs && k.period in b.allEpochs
    ensures ExportBody(a, canon) == ExportBody(b, canon)
    ensures |ExportEntries(a, canon)| == |ExportEntries(b, canon)|
  {
    var ka, kb := ExportKeys(a, a.allEpochs), ExportKeys(b, b.allEpochs);
    forall k ensures multiset(ka)[k] == multiset(kb)[k] {
      ExportMultiplicity(a, a.allEpochs, k);
      ExportMultiplicity(b, b.allEpochs, k);
      if k in a.snapshots {
        AllPeriodsVisited(a, k.business);
        AllPeriodsVisited(b, k.business);
        forall p ensures p in a.Periods(k.business) <==> p in b.Periods(k.business) {
          assert IndexOk(a, k.business, p) && IndexOk(b, k.business, p);
        }
        SameElementsSameSize(a.Periods(k.business), b.Periods(k.business));
      }
    }
    assert multiset(ka) == multiset(kb);
    EncodePermutes(a, canon, ka, kb);
    EncodeSameSnapshots(a, b, canon, kb);
    SortIsSortedPermutation(Encode(a, canon, ka));
    SortIsSortedPermutation(Encode(b, canon, kb));
    SortedIsUnique(ExportEntries(a, canon), ExportEntries(b, canon));
  }

  ghost predicate NoCommit(calls: seq<Restore.Call>) {
    forall i :: 0 <= i < |calls| ==> !calls[i].CommitCall?
  }

  lemma {:induction false} RecordingListsEveryEpoch(fp: Restore.Fingerprint, calls: seq<Restore.Call>)
    requires NoCommit(calls)
    ensures forall k :: k in Restore.After(fp, calls).archive.snapshots
              ==> k.period in Restore.After(fp, calls).archive.allEpochs
  {
    if calls != [] {
      RecordingListsEveryEpoch(fp, calls[..|calls| - 1]);
    }
  }

  /** Over runs that only record and finalize, the exported body is a function of the live
      snapshots alone, and each record occurs once per period of its business. */
  lemma RecordedRunsExportTheirSnapshots(fp: Restore.Fingerprint, canon: Canon,
    calls1: seq<Restore.Call>, calls2: seq<Restore.Call>, k: Key)
    requires NoCommit(calls1) && NoCommit(calls2)
    requires Restore.After(fp, calls1).archive.snapshots == Restore.After(fp, calls2).archive.snapshots
    ensures ExportBody(Restore.After(fp, calls1).archive, canon) == ExportBody(Restore.After(fp, calls2).archive, canon)
    ensures
      var a := Restore.After(fp, calls1).archive;
      multiset(ExportKeys(a, a.allEpochs))[k] == if k in a.snapshots then |a.Periods(k.business)| else 0
  {
    Restore.EveryArchiveIsIndexed(fp, calls1);
    Restore.EveryArchiveIsIndexed(fp, calls2);
    RecordingListsEveryEpoch(fp, calls1);
    RecordingListsEveryEpoch(fp, calls2);
    var a := Restore.After(fp, calls1).archive;
    ExportIsOrderIndependent(a, Restore.After(fp, calls2).archive, canon);
    ExportMultiplicity(a, a.allEpochs, k);
    if k in a.snapshots {
      AllPeriodsVisited(a, k.business);
    }
  }

  /** Exactly which records are exported: a live record whose business has some listed period,
      its own or another. */
  lemma ExportedIff(a: Archive, k: Key)
    requires Inv(a)
    ensures k in ExportKeys(a, a.allEpochs) <==>
              k in a.snapshots && exists e :: e in a.allEpochs && e in a.Periods(k.business)
  {
    ExportMultiplicity(a, a.allEpochs, k);
    VisitsMeaning(a, a.allEpochs, k.business);
    var visits := Visits(a, a.allEpochs, k.business);
    assert k in ExportKeys(a, a.allEpochs) <==> multiset(ExportKeys(a, a.allEpochs))[k] > 0;
    assert visits != [] ==> visits[0] in visits;
  }

  /** A restore lists no epoch. Afterwards a record, restored or not, is exported exactly when
      its business has a record of a period that was listed before the restore. */
  lemma RestoredIsExportedIff(a: Archive, fp: Restore.Fingerprint, caller: Address,
    entries: seq<Restore.Entry>, ledger: nat, after: Archive, k: Key)
    requires Inv(a) && Restore.Commit(a, fp, caller, entries, ledger) == Some(after)
    ensures k in ExportKeys(after, after.allEpochs) <==>
              k in after.snapshots && exists e :: e in a.allEpochs && Key(k.business, e) in after.snapshots
  {
    Restore.CommitKeepsInv(a, fp, caller, entries, ledger);
    ExportedIff(after, k);
    forall e ensures e in after.Periods(k.business) <==> Key(k.business, e) in after.snapshots {
      assert IndexOk(after, k.business, e);
    }
  }

  /** The case where nothing was ever recorded: then a restore leaves nothing to export. */
  lemma RestoredOnlyIsNotExported(a: Archive, fp: Restore.Fingerprint, caller: Address,
    entries: seq<Restore.Entry>, ledger: nat, canon: Canon)
    requires Inv(a) && a.allEpochs == []
    requires Restore.Commit(a, fp, caller, entries, ledger).Some?
    ensures ExportBody(Restore.Commit(a, fp, caller, entries, ledger).value, canon) == []
  {
    Restore.CommitKeepsInv(a, fp, caller, entries, ledger);
  }

  /* ---------- What the commitment determines ---------- */

  /** No encoding starts another one, as holds for length-prefixed encodings. */
  ghost predicate PrefixFree(canon: Canon) {
    forall r, s :: canon(r) <= canon(s) ==> r == s
  }

  ghost predicate IsWord(canon: Canon, w: Bytes) {
    exists r :: w == canon(r)
  }

  ghost predicate AreWords(canon: Canon, xs: seq<Bytes>) {
    forall i :: 0 <= i < |xs| ==> IsWord(canon, xs[i])
  }

  lemma WordsAreNotEmpty(canon: Canon, r: SnapshotRecord)
    requires PrefixFree(canon)
    ensures canon(r) != []
  {
    if canon(r) == [] {
      var other := r.(anomalyCount := r.anomalyCount + 1);
      assert canon(r) <= canon(other);
    }
  }

  lemma {:induction false} ConcatFromFront(xs: seq<Bytes>)
    requires xs != []
    ensures Concat(xs) == xs[0] + Concat(xs[1..])
  {
    if |xs| > 1 {
      ConcatFromFront(xs[..|xs| - 1]);
      assert xs[..|xs| - 1][1..] == xs[1..][..|xs| - 2];
    }
  }

  /** A concatenation of words can be read back in only one way. */
  lemma {:induction false} ConcatIsUniquelyRead(canon: Canon, xs: seq<Bytes>, ys: seq<Bytes>)
    requires PrefixFree(canon) && AreWords(canon, xs) && AreWords(canon, ys) && Concat(xs) == Concat(ys)
    ensures xs == ys
    decreases |xs| + |ys|
  {
    if xs == [] && ys == [] {
    } else if xs == [] || ys == [] {
      var zs := if xs == [] then ys else xs;
      ConcatFromFront(zs);
      assert IsWord(canon, zs[0]);
      var r :| zs[0] == canon(r);
      WordsAreNotEmpty(canon, r);
      assert false;
    } else {
      ConcatFromFront(xs);
      ConcatFromFront(ys);
      FirstWordsAgree(canon, xs[0], Concat(xs[1..]), ys[0], Concat(ys[1..]));
      assert Concat(xs[1..]) == Concat(xs)[|xs[0]|..] == Concat(ys[1..]);
      ConcatIsUniquelyRead(canon, xs[1..], ys[1..]);
      assert xs == [xs[0]] + xs[1..] && ys == [ys[0]] + ys[1..];
    }
  }

  lemma FirstWordsAgree(canon: Canon, x: Bytes, xRest: Bytes, y: Bytes, yRest: Bytes)
    requires PrefixFree(canon) && IsWord(canon, x) && IsWord(canon, y) && x + xRest == y + yRest
    ensures x == y
  {
    var r :| x == canon(r);
    var s :| y == canon(s);
    var whole := x + xRest;
    assert x == whole[..|x|] && y == whole[..|y|];
    assert |x| <= |y| ==> canon(r) <= canon(s);
    assert |y| <= |x| ==> canon(s) <= canon(r);
  }

  function Records(a: Archive, keys: seq<Key>): seq<SnapshotRecord> {
    if keys == [] then []
    else
      var k := keys[|keys| - 1];
      Records(a, keys[..|keys| - 1]) + if k in a.snapshots then [a.snapshots[k]] else []
  }

  lemma {:induction false} EncodingsCountRecords(a: Archive, canon: Canon, keys: seq<Key>, r: SnapshotRecord)
    requires PrefixFree(canon)
    ensures multiset(Encode(a, canon, keys))[canon(r)] == multiset(Records(a, keys))[r]
    ensures AreWords(canon, Encode(a, canon, keys))
  {
    if keys != [] {
      var k := keys[|keys| - 1];
      EncodingsCountRecords(a, canon, keys[..|keys| - 1], r);
      if k in a.snapshots {
        assert IsWord(canon, canon(a.snapshots[k]));
        assert canon(a.snapshots[k]) == canon(r) ==> canon(r) <= canon(a.snapshots[k]);
      }
    }
  }

  ghost predicate SameRecordCounts(a: Archive, b: Archive, ka: seq<Key>, kb: seq<Key>) {
    forall r :: multiset(Records(a, ka))[r] == multiset(Records(b, kb))[r]
  }

  lemma SameEncodingsSameRecords(a: Archive, b: Archive, canon: Canon, ka: seq<Key>, kb: seq<Key>)
    requires PrefixFree(canon) && multiset(Encode(a, canon, ka)) == multiset(Encode(b, canon, kb))
    ensures SameRecordCounts(a, b, ka, kb)
  {
    forall r ensures multiset(Records(a, ka))[r] == multiset(Records(b, kb))[r] {
      EncodingsCountRecords(a, canon, ka, r);
      EncodingsCountRecords(b, canon, kb, r);
    }
  }

  lemma SameRecordsSameWords(a: Archive, b: Archive, canon: Canon, ka: seq<Key>, kb: seq<Key>, r: SnapshotRecord)
    requires PrefixFree(canon) && SameRecordCounts(a, b, ka, kb)
    ensures multiset(Encode(a, canon, ka))[canon(r)] == multiset(Encode(b, canon, kb))[canon(r)]
    ensures AreWords(canon, Encode(a, canon, ka)) && AreWords(canon, Encode(b, canon, kb))
  {
    EncodingsCountRecords(a, canon, ka, r);
    EncodingsCountRecords(b, canon, kb, r);
    assert multiset(Records(a, ka))[r] == multiset(Records(b, kb))[r];
  }

  lemma SameRecordsSameEncodings(a: Archive, b: Archive, canon: Canon, ka: seq<Key>, kb: seq<Key>)
    requires PrefixFree(canon) && SameRecordCounts(a, b, ka, kb)
    ensures multiset(Encode(a, canon, ka)) == multiset(Encode(b, canon, kb))
  {
    var ea, eb := Encode(a, canon, ka), Encode(b, canon, kb);
    SameRecordsSameWords(a, b, canon, ka, kb, SnapshotRecord("", 0, 0, 0, 0));
    forall r ensures multiset(ea)[canon(r)] == multiset(eb)[canon(r)] {
      SameRecordsSameWords(a, b, canon, ka, kb, r);
    }
    forall w: Bytes ensures multiset(ea)[w] == multiset(eb)[w] {
      SameCountOfWord(canon, ea, eb, w);
    }
  }

  lemma SameCountOfWord(canon: Canon, xs: seq<Bytes>, ys: seq<Bytes>, w: Bytes)
    requires AreWords(canon, xs) && AreWords(canon, ys)
    requires forall r :: multiset(xs)[canon(r)] == multiset(ys)[canon(r)]
    ensures multiset(xs)[w] == multiset(ys)[w]
  {
    if !IsWord(canon, w) {
      assert w !in xs && w !in ys;
    }
  }

  /** How many times each live key with record `r` is exported. */
  ghost function VisitWeights(a: Archive, r: SnapshotRecord): map<Key, int> {
    map k | k in a.snapshots && a.snapshots[k] == r :: |Visits(a, a.allEpochs, k.business)|
  }

  ghost function KeyCounts(a: Archive, keys: seq<Key>, r: SnapshotRecord): map<Key, int> {
    map k | k in a.snapshots && a.snapshots[k] == r :: multiset(keys)[k]
  }

  lemma {:induction false} ZerosSumToZero(m: map<Key, int>)
    requires forall k :: k in m ==> m[k] == 0
    ensures MapSum(m) == 0
    decreases |m.Keys|
  {
    if m.Keys != {} {
      var k :| k in m.Keys;
      MapSumTake(m, k);
      assert (m - {k}).Keys == m.Keys - {k};
      ZerosSumToZero(m - {k});
    }
  }

  lemma KeyCountsStep(a: Archive, front: seq<Key>, k: Key, r: SnapshotRecord)
    ensures
      var before := KeyCounts(a, front, r);
      KeyCounts(a, front + [k], r) == if k in before then before[k := before[k] + 1] else before
  {
    assert multiset(front + [k]) == multiset(front) + multiset{k};
  }

  lemma RecordsStep(a: Archive, front: seq<Key>, k: Key, r: SnapshotRecord)
    ensures multiset(Records(a, front + [k]))[r] ==
              multiset(Records(a, front))[r] + if k in a.snapshots && a.snapshots[k] == r then 1 else 0
  {
    assert (front + [k])[..|front|] == front;
    assert k !in a.snapshots ==> Records(a, front + [k]) == Records(a, front);
  }

  lemma KeyCountsSumStep(a: Archive, front: seq<Key>, k: Key, r: SnapshotRecord)
    ensures MapSum(KeyCounts(a, front + [k], r)) ==
              MapSum(KeyCounts(a, front, r)) + if k in a.snapshots && a.snapshots[k] == r then 1 else 0
  {
    KeyCountsStep(a, front, k, r);
    var before := KeyCounts(a, front, r);
    if k in before {
      MapSumUpdate(before, k, before[k] + 1);
    }
  }

  lemma {:induction false} RecordsCountKeys(a: Archive, keys: seq<Key>, r: SnapshotRecord)
    ensures multiset(Records(a, keys))[r] == MapSum(KeyCounts(a, keys, r))
  {
    if keys == [] {
      ZerosSumToZero(KeyCounts(a, [], r));
    } else {
      var front, k := keys[..|keys| - 1], keys[|keys| - 1];
      RecordsCountKeys(a, front, r);
      RecordsStep(a, front, k, r);
      KeyCountsSumStep(a, front, k, r);
      assert keys == front + [k];
    }
  }

  lemma ExportedRecordWeight(a: Archive, r: SnapshotRecord)
    requires Inv(a)
    ensures multiset(Records(a, ExportKeys(a, a.allEpochs)))[r] == MapSum(VisitWeights(a, r))
  {
    RecordsCountKeys(a, ExportKeys(a, a.allEpochs), r);
    forall k | k in a.snapshots
      ensures multiset(ExportKeys(a, a.allEpochs))[k] == |Visits(a, a.allEpochs, k.business)| {
      ExportMultiplicity(a, a.allEpochs, k);
    }
    assert KeyCounts(a, ExportKeys(a, a.allEpochs), r) == VisitWeights(a, r);
  }

  lemma SameBodyIffSameEncodings(a: Archive, b: Archive, canon: Canon)
    requires PrefixFree(canon)
    ensures
      var ea, eb := Encode(a, canon, ExportKeys(a, a.allEpochs)), Encode(b, canon, ExportKeys(b, b.allEpochs));
      ExportBody(a, canon) == ExportBody(b, canon) <==> multiset(ea) == multiset(eb)
  {
    var ea, eb := Encode(a, canon, ExportKeys(a, a.allEpochs)), Encode(b, canon, ExportKeys(b, b.allEpochs));
    SortIsSortedPermutation(ea);
    SortIsSortedPermutation(eb);
    if multiset(ea) == multiset(eb) {
      SortedIsUnique(SortLex(ea), SortLex(eb));
    }
    if ExportBody(a, canon) == ExportBody(b, canon) {
      EncodingsCountRecords(a, canon, ExportKeys(a, a.allEpochs), SnapshotRecord("", 0, 0, 0, 0));
      EncodingsCountRecords(b, canon, ExportKeys(b, b.allEpochs), SnapshotRecord("", 0, 0, 0, 0));
      PermutedWords(canon, ea, SortLex(ea));
      PermutedWords(canon, eb, SortLex(eb));
      ConcatIsUniquelyRead(canon, SortLex(ea), SortLex(eb));
    }
  }

  lemma PermutedWords(canon: Canon, xs: seq<Bytes>, ys: seq<Bytes>)
    requires AreWords(canon, xs) && multiset(xs) == multiset(ys)
    ensures AreWords(canon, ys)
  {
    forall i | 0 <= i < |ys| ensures IsWord(canon, ys[i]) {
      assert ys[i] in multiset(xs);
      var j :| 0 <= j < |xs| && xs[j] == ys[i];
    }
  }

  lemma SameCountsIffSameWeights(a: Archive, b: Archive)
    requires Inv(a) && Inv(b)
    ensures SameRecordCounts(a, b, ExportKeys(a, a.allEpochs), ExportKeys(b, b.allEpochs)) <==>
              forall r :: MapSum(VisitWeights(a, r)) == MapSum(VisitWeights(b, r))
  {
    forall r
      ensures multiset(Records(a, ExportKeys(a, a.allEpochs)))[r] == MapSum(VisitWeights(a, r))
      ensures multiset(Records(b, ExportKeys(b, b.allEpochs)))[r] == MapSum(VisitWeights(b, r))
    {
      ExportedRecordWeight(a, r);
      ExportedRecordWeight(b, r);
    }
  }

  /** What the commitment determines, and no more: two archives have the same commitment exactly
      when every record has the same weight in both, its weight being the number of visits of
      the businesses that hold it. Which business holds a record is not encoded. */
  lemma CommitmentDeterminesIff(a: Archive, b: Archive, canon: Canon, sha256: Bytes -> Hash)
    requires Inv(a) && Inv(b) && PrefixFree(canon)
    requires forall x, y :: sha256(x) == sha256(y) ==> x == y
    ensures sha256(ExportBody(a, canon)) == sha256(ExportBody(b, canon)) <==>
              forall r :: MapSum(VisitWeights(a, r)) == MapSum(VisitWeights(b, r))
  {
    var ka, kb := ExportKeys(a, a.allEpochs), ExportKeys(b, b.allEpochs);
    SameBodyIffSameEncodings(a, b, canon);
    if multiset(Encode(a, canon, ka)) == multiset(Encode(b, canon, kb)) {
      SameEncodingsSameRecords(a, b, canon, ka, kb);
    }
    SameCountsIffSameWeights(a, b);
    if SameRecordCounts(a, b, ka, kb) {
      SameRecordsSameEncodings(a, b, canon, ka, kb);
    }
  }

  /* ---------- Entry point ---------- */

  /** The innermost loop: every live record of one business. */
  method CollectBusiness(c: SnapshotContract, canon: Canon, b: Address, collected: seq<Bytes>, ghost keys0: seq<Key>)
    returns (entries: seq<Bytes>)
    requires collected == Encode(c.Model(), canon, keys0)
    ensures entries == Encode(c.Model(), canon, keys0 + BusinessKeys(c.Model(), b, c.Model().Periods(b)))
  {
    entries := collected;
    var periods := Get(c.businessPeriods, b, []);
    ghost var keys := keys0;
    for n := 0 to |periods|
      invariant keys == keys0 + BusinessKeys(c.Model(), b, periods[..n])
      invariant entries == Encode(c.Model(), canon, keys)
    {
      assert periods[..n + 1][..n] == periods[..n];
      var k := Key(b, periods[n]);
      if k in c.snapshots {
        assert (keys + [k])[..|keys|] == keys;
        entries := entries + [canon(c.snapshots[k])];
        keys := keys + [k];
      }
    }
    assert periods[..|periods|] == periods;
  }

  /** The middle loop: the businesses of one epoch. */
  method CollectEpoch(c: SnapshotContract, canon: Canon, epoch: Period, collected: seq<Bytes>, ghost keys0: seq<Key>)
    returns (entries: seq<Bytes>)
    requires collected == Encode(c.Model(), canon, keys0)
    ensures entries == Encode(c.Model(), canon, keys0 + EpochKeys(c.Model(), c.Model().Businesses(epoch)))
  {
    entries := collected;
    var businesses := Get(c.epochBusinesses, epoch, []);
    assert keys0 + EpochKeys(c.Model(), businesses[..0]) == keys0;
    for j := 0 to |businesses|
      invariant entries == Encode(c.Model(), canon, keys0 + EpochKeys(c.Model(), businesses[..j]))
    {
      ghost var keys := keys0 + EpochKeys(c.Model(), businesses[..j]);
      assert businesses[..j + 1][..j] == businesses[..j];
      entries := CollectBusiness(c, canon, businesses[j], entries, keys);
      assert keys + BusinessKeys(c.Model(), businesses[j], c.Model().Periods(businesses[j]))
          == keys0 + EpochKeys(c.Model(), businesses[..j + 1]);
    }
    assert businesses[..|businesses|] == businesses;
  }

  method CollectEntries(c: SnapshotContract, canon: Canon) returns (entries: seq<Bytes>)
    ensures entries == Encode(c.Model(), canon, ExportKeys(c.Model(), c.allEpochs))
  {
    entries := [];
    for i := 0 to |c.allEpochs|
      invariant entries == Encode(c.Model(), canon, ExportKeys(c.Model(), c.allEpochs[..i]))
    {
      assert c.allEpochs[..i + 1][..i] == c.allEpochs[..i];
      entries := CollectEpoch(c, canon, c.allEpochs[i], entries, ExportKeys(c.Model(), c.allEpochs[..i]));
    }
    assert c.allEpochs[..|c.allEpochs|] == c.allEpochs;
  }

  /** Swaps element `i` leftwards into the sorted part before it. */
  method SinkLeft(input: seq<Bytes>, i: nat) returns (entries: seq<Bytes>)
    requires i < |input|
    ensures |entries| == |input|
    ensures entries[..i + 1] == InsertLex(input[..i], input[i])
    ensures entries[i + 1..] == input[i + 1..]
  {
    entries := input;
    ghost var x := input[i];
    var j := i;
    ghost var passed: seq<Bytes> := [];
    while j > 0
      invariant 0 <= j <= i < |entries| == |input|
      invariant entries == input[..j] + [x] + passed + input[i + 1..] && |passed| == i - j
      invariant InsertLex(input[..i], x) == InsertLex(input[..j], x) + passed
    {
      var prev, cur := entries[j - 1], entries[j];
      assert input[..j][..j - 1] == input[..j - 1];
      if LexLe(prev, cur) {
        break;
      }
      entries := entries[j := prev];
      entries := entries[j - 1 := cur];
      passed := [prev] + passed;
      j := j - 1;
    }
    assert InsertLex(input[..j], x) == input[..j] + [x];
  }

  lemma SortStep(input: seq<Bytes>, i: nat, next: seq<Bytes>)
    requires i < |input| == |next| && |SortLex(input[..i])| == i
    requires next[..i + 1] == InsertLex(SortLex(input[..i]), input[i]) && next[i + 1..] == input[i + 1..]
    ensures next == SortLex(input[..i + 1]) + input[i + 1..]
    ensures |SortLex(input[..i + 1])| == i + 1
  {
    assert input[..i + 1][..i] == input[..i];
    assert next == next[..i + 1] + next[i + 1..];
  }

  /** Insertion sort by adjacent swaps. */
  method SortEntries(input: seq<Bytes>) returns (entries: seq<Bytes>)
    ensures entries == SortLex(input)
  {
    entries := input;
    if |entries| == 0 {
      return;
    }
    assert input[..1][..0] == [] && SortLex(input[..1]) == [input[0]];
    for i := 1 to |input|
      invariant |entries| == |input|
      invariant entries == SortLex(input[..i]) + input[i..]
      invariant |SortLex(input[..i])| == i
    {
      assert entries[..i] == SortLex(input[..i]) && entries[i] == input[i];
      assert entries[i + 1..] == input[i + 1..];
      entries := SinkLeft(entries, i);
      SortStep(input, i, entries);
    }
    assert input[..|input|] == input;
  }

  /** The commitment and the number of encodings it covers. */
  method ExportCommitment(c: SnapshotContract, canon: Canon, sha256: Bytes -> Hash)
    returns (commitment: Hash, count: nat)
    ensures commitment == sha256(ExportBody(c.Model(), canon))
    ensures count == |ExportEntries(c.Model(), canon)|
  {
    var entries := CollectEntries(c, canon);
    entries := SortEntries(entries);
    var body: Bytes := [];
    for i := 0 to |entries|
      invariant body == Concat(entries[..i])
    {
      assert entries[..i + 1][..i] == entries[..i];
      body := body + entries[i];
    }
    assert entries[..|entries|] == entries;
    return sha256(body), |entries|;
  }
}
