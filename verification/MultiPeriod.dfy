/** Multi-period attestations (contracts/attestation/src/lib.rs): ranges of periods that must
    not overlap while active, with a reverse index from root to range for revocation.
 */
module MultiPeriod {
  import opened Base

  datatype Range = Range(
    start: nat,
    end: nat,
    root: Hash,
    timestamp: nat,
    version: nat,
    feePaid: int,
    proofHash: Option<Hash>,
    expiry: Option<nat>,
    revoked: bool)
  {
    predicate Covers(period: nat) {
      start <= period <= end
    }

    predicate Overlaps(s: nat, e: nat) {
      s <= end && e >= start
    }

    predicate ExpiredAt(now: nat) {
      expiry.Some? && now >= expiry.value
    }
  }

  datatype RootKey = RootKey(business: Address, root: Hash)

  datatype Store = Store(ranges: map<Address, seq<Range>>, rootIndex: map<RootKey, nat>) {
    function RangesOf(b: Address): seq<Range> {
      Get(ranges, b, [])
    }
  }

  const Empty := Store(map[], map[])

  /* ---------- Specification of the operations ---------- */

  predicate ExpiryOk(timestamp: nat, expiry: Option<nat>, now: nat) {
    expiry.Some? ==> expiry.value > timestamp && expiry.value > now
  }

  predicate FreeOf(rs: seq<Range>, start: nat, end: nat) {
    forall i :: 0 <= i < |rs| ==> rs[i].revoked || !rs[i].Overlaps(start, end)
  }

  /** `r.feePaid` is what the fee module collected; its own aborts are `feeOk`. */
  function Submit(s: Store, b: Address, r: Range, now: nat, feeOk: bool): Option<Store> {
    if r.start > r.end || !ExpiryOk(r.timestamp, r.expiry, now) || !FreeOf(s.RangesOf(b), r.start, r.end) || !feeOk
    then None
    else Some(Store(
      s.ranges[b := s.RangesOf(b) + [r.(revoked := false)]],
      s.rootIndex[RootKey(b, r.root) := |s.RangesOf(b)|]))
  }

  function Revoke(s: Store, b: Address, root: Hash): Option<Store> {
    if RootKey(b, root) !in s.rootIndex || b !in s.ranges || s.rootIndex[RootKey(b, root)] >= |s.ranges[b]| then None
    else
      var i := s.rootIndex[RootKey(b, root)];
      Some(s.(ranges := s.ranges[b := s.ranges[b][i := s.ranges[b][i].(revoked := true)]]))
  }

  predicate Proves(r: Range, period: nat, root: Hash, now: nat) {
    !r.revoked && r.Covers(period) && !r.ExpiredAt(now) && r.root == root
  }

  predicate Verify(s: Store, b: Address, period: nat, root: Hash, now: nat) {
    exists i :: 0 <= i < |s.RangesOf(b)| && Proves(s.RangesOf(b)[i], period, root, now)
  }

  /** The linear alternative to the index: the last range with this root, scanning backwards. */
  function LastWithRoot(rs: seq<Range>, root: Hash): Option<nat> {
    if rs == [] then None
    else if rs[|rs| - 1].root == root then Some(|rs| - 1)
    else LastWithRoot(rs[..|rs| - 1], root)
  }

  lemma {:induction false} LastWithRootMeaning(rs: seq<Range>, root: Hash)
    ensures LastWithRoot(rs, root).None? <==> forall i :: 0 <= i < |rs| ==> rs[i].root != root
    ensures LastWithRoot(rs, root).Some? ==>
              var k := LastWithRoot(rs, root).value;
              k < |rs| && rs[k].root == root && forall i :: k < i < |rs| ==> rs[i].root != root
  {
    if rs != [] && rs[|rs| - 1].root != root {
      LastWithRootMeaning(rs[..|rs| - 1], root);
      assert forall i :: 0 <= i < |rs| - 1 ==> rs[i] == rs[..|rs| - 1][i];
    }
  }

  /* ---------- The invariant ---------- */

  ghost predicate Disjoint(rs: seq<Range>) {
    forall i, j :: 0 <= i < j < |rs| && !rs[i].revoked && !rs[j].revoked
      ==> rs[i].end < rs[j].start || rs[j].end < rs[i].start
  }

  ghost predicate WellFormed(rs: seq<Range>) {
    forall i :: 0 <= i < |rs| ==> rs[i].start <= rs[i].end
  }

  ghost predicate Inv(s: Store) {
    && (forall b :: Disjoint(s.RangesOf(b)) && WellFormed(s.RangesOf(b)))
    && (forall b, root :: Lookup(s.rootIndex, RootKey(b, root)) == LastWithRoot(s.RangesOf(b), root))
  }

  datatype Call =
    | SubmitCall(b: Address, r: Range, now: nat, feeOk: bool)
    | RevokeCall(b: Address, root: Hash)

  function Apply(s: Store, call: Call): Option<Store> {
    match call
    case SubmitCall(b, r, now, feeOk) => Submit(s, b, r, now, feeOk)
    case RevokeCall(b, root) => Revoke(s, b, root)
  }

  function After(calls: seq<Call>): Store {
    if calls == [] then Empty
    else
      var before := After(calls[..|calls| - 1]);
      Apply(before, calls[|calls| - 1]).GetOr(before)
  }

  lemma {:induction false} RevokedFlagsDoNotMoveRoots(rs: seq<Range>, i: nat, root: Hash)
    requires i < |rs|
    ensures LastWithRoot(rs[i := rs[i].(revoked := true)], root) == LastWithRoot(rs, root)
  {
    var marked := rs[i := rs[i].(revoked := true)];
    if i == |rs| - 1 {
      assert marked[..|rs| - 1] == rs[..|rs| - 1];
    } else {
      assert marked[..|rs| - 1] == rs[..|rs| - 1][i := rs[i].(revoked := true)];
      RevokedFlagsDoNotMoveRoots(rs[..|rs| - 1], i, root);
    }
  }

  lemma FreeRangeStaysDisjoint(rs: seq<Range>, r: Range)
    ensures Disjoint(rs) && WellFormed(rs) && FreeOf(rs, r.start, r.end) && r.start <= r.end ==>
              Disjoint(rs + [r]) && WellFormed(rs + [r])
  {
  }

  lemma NewestRootIsLast(rs: seq<Range>, r: Range, root: Hash)
    ensures LastWithRoot(rs + [r], root) == if r.root == root then Some(|rs|) else LastWithRoot(rs, root)
  {
    assert (rs + [r])[..|rs|] == rs;
  }

  /** A submission appends one active range and points the index of its root at it. */
  lemma SubmitEffect(s: Store, b: Address, r: Range, now: nat, feeOk: bool, next: Store)
    requires Submit(s, b, r, now, feeOk) == Some(next)
    ensures r.start <= r.end && FreeOf(s.RangesOf(b), r.start, r.end)
    ensures forall x :: next.RangesOf(x) == if x == b then s.RangesOf(b) + [r.(revoked := false)] else s.RangesOf(x)
    ensures next.rootIndex == s.rootIndex[RootKey(b, r.root) := |s.RangesOf(b)|]
  {
  }

  /** Exactly when a range is accepted: it is not reversed, an expiry lies after both its own
      timestamp and the ledger time, no active range of the business meets it, and the fee is
      paid. */
  lemma SubmitCommitsIff(s: Store, b: Address, r: Range, now: nat, feeOk: bool)
    ensures Submit(s, b, r, now, feeOk).Some? <==>
              && r.start <= r.end && feeOk
              && (r.expiry.None? || (r.timestamp < r.expiry.value && now < r.expiry.value))
              && forall i :: 0 <= i < |s.RangesOf(b)| && !s.RangesOf(b)[i].revoked ==>
                   s.RangesOf(b)[i].end < r.start || r.end < s.RangesOf(b)[i].start
  {
  }

  lemma AppendedRootIsIndexed(s: Store, b: Address, r: Range, next: Store, x: Address, root: Hash)
    requires Lookup(s.rootIndex, RootKey(x, root)) == LastWithRoot(s.RangesOf(x), root)
    requires next.RangesOf(x) == if x == b then s.RangesOf(b) + [r] else s.RangesOf(x)
    requires next.rootIndex == s.rootIndex[RootKey(b, r.root) := |s.RangesOf(b)|]
    ensures Lookup(next.rootIndex, RootKey(x, root)) == LastWithRoot(next.RangesOf(x), root)
  {
    NewestRootIsLast(s.RangesOf(b), r, root);
  }

  lemma AppendedRangeKeepsInv(s: Store, b: Address, r: Range, next: Store)
    requires Inv(s) && r.start <= r.end && FreeOf(s.RangesOf(b), r.start, r.end)
    requires forall x :: next.RangesOf(x) == if x == b then s.RangesOf(b) + [r] else s.RangesOf(x)
    requires next.rootIndex == s.rootIndex[RootKey(b, r.root) := |s.RangesOf(b)|]
    ensures Inv(next)
  {
    forall x ensures Disjoint(next.RangesOf(x)) && WellFormed(next.RangesOf(x)) {
      assert Disjoint(s.RangesOf(x)) && WellFormed(s.RangesOf(x));
      if x == b {
        FreeRangeStaysDisjoint(s.RangesOf(b), r);
      } else {
        assert next.RangesOf(x) == s.RangesOf(x);
      }
    }
    forall x, root ensures Lookup(next.rootIndex, RootKey(x, root)) == LastWithRoot(next.RangesOf(x), root) {
      AppendedRootIsIndexed(s, b, r, next, x, root);
    }
  }

  lemma SubmitKeepsInv(s: Store, b: Address, r: Range, now: nat, feeOk: bool)
    requires Inv(s) && Submit(s, b, r, now, feeOk).Some?
    ensures Inv(Submit(s, b, r, now, feeOk).value)
  {
    var next := Submit(s, b, r, now, feeOk).value;
    SubmitEffect(s, b, r, now, feeOk, next);
    AppendedRangeKeepsInv(s, b, r.(revoked := false), next);
  }

  lemma RevokeKeepsInv(s: Store, b: Address, root: Hash)
    requires Inv(s) && Revoke(s, b, root).Some?
    ensures Inv(Revoke(s, b, root).value)
  {
    var next, i := Revoke(s, b, root).value, s.rootIndex[RootKey(b, root)];
    forall x ensures Disjoint(next.RangesOf(x)) && WellFormed(next.RangesOf(x)) {
      assert Disjoint(s.RangesOf(x)) && WellFormed(s.RangesOf(x));
    }
    forall x, h ensures Lookup(next.rootIndex, RootKey(x, h)) == LastWithRoot(next.RangesOf(x), h) {
      assert Lookup(s.rootIndex, RootKey(x, h)) == LastWithRoot(s.RangesOf(x), h);
      RevokedFlagsDoNotMoveRoots(s.RangesOf(b), i, h);
    }
  }

  /** Every reachable store: active ranges of a business never overlap, and the root index is
      exactly the backward scan. */
  lemma {:induction false} EveryStoreIsConsistent(calls: seq<Call>)
    ensures Inv(After(calls))
  {
    if calls == [] {
      assert forall b :: Empty.RangesOf(b) == [];
    } else {
      var before, call := After(calls[..|calls| - 1]), calls[|calls| - 1];
      EveryStoreIsConsistent(calls[..|calls| - 1]);
      if Apply(before, call).Some? {
        match call
        case SubmitCall(b, r, now, feeOk) => SubmitKeepsInv(before, b, r, now, feeOk);
        case RevokeCall(b, root) => RevokeKeepsInv(before, b, root);
      }
    }
  }

  /** Without an active range that covers the period nothing is verified. */
  lemma VerifyNeedsACoveringRange(s: Store, b: Address, period: nat, root: Hash, now: nat)
    ensures Verify(s, b, period, root, now) ==>
              exists i :: 0 <= i < |s.RangesOf(b)| && !s.RangesOf(b)[i].revoked
                && s.RangesOf(b)[i].start <= period <= s.RangesOf(b)[i].end
  {
  }

  /** Verification is decided by the single active range covering the period. */
  lemma VerifyIsDecidedByTheCoveringRange(s: Store, b: Address, i: nat, period: nat, root: Hash, now: nat)
    requires Inv(s) && i < |s.RangesOf(b)|
    requires !s.RangesOf(b)[i].revoked && s.RangesOf(b)[i].start <= period <= s.RangesOf(b)[i].end
    ensures
      var r := s.RangesOf(b)[i];
      Verify(s, b, period, root, now) <==> r.root == root && (r.expiry.None? || now < r.expiry.value)
    ensures forall j :: 0 <= j < |s.RangesOf(b)| && j != i && !s.RangesOf(b)[j].revoked
              ==> !(s.RangesOf(b)[j].start <= period <= s.RangesOf(b)[j].end)
  {
    var rs := s.RangesOf(b);
    assert Disjoint(rs) && WellFormed(rs);
    assert Verify(s, b, period, root, now) || !Proves(rs[i], period, root, now);
    forall j | 0 <= j < |rs| && j != i && !rs[j].revoked ensures !(rs[j].start <= period <= rs[j].end) {
      if j < i {
        assert rs[j].end < rs[i].start || rs[i].end < rs[j].start;
      } else {
        assert rs[i].end < rs[j].start || rs[j].end < rs[i].start;
      }
    }
  }

  /** Index lookup and backward scan agree: revocation commits exactly when the root occurs,
      its bounds check cannot fail, and it marks precisely the last range with that root. */
  lemma RevokeIsBackwardScan(s: Store, b: Address, root: Hash)
    requires Inv(s)
    ensures Revoke(s, b, root).Some? <==> exists i :: 0 <= i < |s.RangesOf(b)| && s.RangesOf(b)[i].root == root
    ensures Revoke(s, b, root).Some? ==>
              && LastWithRoot(s.RangesOf(b), root).Some?
              && var k := LastWithRoot(s.RangesOf(b), root).value;
                 k < |s.RangesOf(b)|
                 && Revoke(s, b, root).value.RangesOf(b)
                    == s.RangesOf(b)[k := s.RangesOf(b)[k].(revoked := true)]
  {
    assert Lookup(s.rootIndex, RootKey(b, root)) == LastWithRoot(s.RangesOf(b), root);
    LastWithRootMeaning(s.RangesOf(b), root);
  }

  /** Revoking a root reaches only its last range. Afterwards the root still proves some period
      exactly when an older range with the same root was active, and then repeating the
      revocation does not help: it marks the same last range again. */
  lemma RevocationMissesOlderRanges(s: Store, b: Address, root: Hash, period: nat, now: nat)
    requires Inv(s) && Revoke(s, b, root).Some?
    ensures LastWithRoot(s.RangesOf(b), root).Some?
    ensures
      var rs, k := s.RangesOf(b), LastWithRoot(s.RangesOf(b), root).value;
      Verify(Revoke(s, b, root).value, b, period, root, now) <==>
      (exists i :: 0 <= i < k && i < |rs| && !rs[i].revoked && rs[i].root == root
                   && rs[i].start <= period <= rs[i].end && (rs[i].expiry.None? || now < rs[i].expiry.value))
    ensures Revoke(Revoke(s, b, root).value, b, root) == Revoke(s, b, root)
  {
    RevokeIsBackwardScan(s, b, root);
    LastWithRootMeaning(s.RangesOf(b), root);
    var rs, k, once := s.RangesOf(b), LastWithRoot(s.RangesOf(b), root).value, Revoke(s, b, root).value;
    assert Lookup(s.rootIndex, RootKey(b, root)) == Some(k);
    assert once.RangesOf(b) == rs[k := rs[k].(revoked := true)];
    if i :| 0 <= i < k && !rs[i].revoked && rs[i].root == root
            && rs[i].start <= period <= rs[i].end && (rs[i].expiry.None? || now < rs[i].expiry.value) {
      assert Proves(once.RangesOf(b)[i], period, root, now);
    }
    if i :| 0 <= i < |rs| && Proves(once.RangesOf(b)[i], period, root, now) {
      assert i != k && rs[i].root == root && i < k;
    }
    assert once.ranges[b][k := once.ranges[b][k].(revoked := true)] == once.ranges[b];
    assert once.ranges[b := once.ranges[b]] == once.ranges;
  }

  /* ---------- The contract's storage and entry points ---------- */

  class MultiPeriodContract {
    var ranges: map<Address, seq<Range>>
    var rootIndex: map<RootKey, nat>

    function Model(): Store
      reads this
    {
      Store(ranges, rootIndex)
    }

    constructor ()
      ensures Model() == Empty
    {
      ranges, rootIndex := map[], map[];
    }

    method SubmitRange(b: Address, r: Range, now: nat, feeOk: bool) returns (ok: bool)
      modifies this
      ensures Tx(ok, Submit(old(Model()), b, r, now, feeOk), old(Model()), Model())
    {
      if r.start > r.end || !ExpiryOk(r.timestamp, r.expiry, now) {
        return false;
      }
      var list := Get(ranges, b, []);
      for i := 0 to |list|
        invariant FreeOf(list[..i], r.start, r.end)
      {
        if !list[i].revoked && r.start <= list[i].end && r.end >= list[i].start {
          assert !FreeOf(list, r.start, r.end);
          return false;
        }
      }
      assert list[..|list|] == list;
      if !feeOk {
        return false;
      }
      list := list + [r.(revoked := false)];
      ranges := ranges[b := list];
      rootIndex := rootIndex[RootKey(b, r.root) := |list| - 1];
      return true;
    }

    method RevokeRange(b: Address, root: Hash) returns (ok: bool)
      modifies this`ranges
      ensures Tx(ok, Revoke(old(Model()), b, root), old(Model()), Model())
    {
      var key := RootKey(b, root);
      if key !in rootIndex || b !in ranges {
        return false;
      }
      var i, list := rootIndex[key], ranges[b];
      if i >= |list| {
        return false;
      }
      ranges := ranges[b := list[i := list[i].(revoked := true)]];
      return true;
    }

    method VerifyRange(b: Address, period: nat, root: Hash, now: nat) returns (proven: bool)
      ensures proven == Verify(Model(), b, period, root, now)
    {
      if b !in ranges {
        return false;
      }
      var list := ranges[b];
      for i := 0 to |list|
        invariant forall j :: 0 <= j < i ==> !Proves(list[j], period, root, now)
      {
        if !list[i].revoked && period >= list[i].start && period <= list[i].end {
          var isExpired := list[i].expiry.Some? && now >= list[i].expiry.value;
          if !isExpired && list[i].root == root {
            assert Proves(Model().RangesOf(b)[i], period, root, now);
            return true;
          }
        }
      }
      return false;
    }
  }
}
