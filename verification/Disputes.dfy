/** Disputes over attestations (contracts/attestation/src/dispute.rs and the dispute entry
    points of its lib.rs): a status machine, two indexes, and a reference-counted lock on the
    attestor behind a disputed attestation.
 */
module Disputes {
  import opened Base

  const DISPUTE_DEADLINE_SECONDS: nat := 604_800
  const MIN_DISPUTE_DEADLINE_SECONDS: nat := 3600
  const MAX_DISPUTE_DEADLINE_SECONDS: nat := 7_776_000

  datatype Status = Open | Resolved | Closed

  datatype Outcome = Upheld | Declined | Settled

  datatype Resolution = Resolution(resolver: Address, outcome: Outcome, timestamp: nat, notes: string)

  datatype Dispute = Dispute(
    id: nat,
    challenger: Address,
    key: Key,
    attestor: Address,
    status: Status,
    evidence: string,
    timestamp: nat,
    resolution: Option<Resolution>)

  /** `attestors` records who submitted an attestation on a business's behalf;
      `lockCounts` holds only positive counts. */
  datatype Docket = Docket(
    counter: nat,
    disputes: map<nat, Dispute>,
    resolutions: map<nat, Resolution>,
    byKey: map<Key, seq<nat>>,
    byChallenger: map<Address, seq<nat>>,
    attestors: map<Key, Address>,
    lockCounts: map<Address, nat>,
    deadline: nat)
  {
    function IdsByKey(k: Key): seq<nat> {
      Get(byKey, k, [])
    }

    function IdsByChallenger(a: Address): seq<nat> {
      Get(byChallenger, a, [])
    }

    function Locks(a: Address): nat {
      Get(lockCounts, a, 0)
    }
  }

  const Empty := Docket(0, map[], map[], map[], map[], map[], map[], DISPUTE_DEADLINE_SECONDS)

  const ROLLBACK_NOTE := "Automatic rollback: dispute resolution deadline exceeded"

  const WITNESS_NOTE := "Witness evidence verified via Merkle proof"

  /* ---------- Specification of the operations ---------- */

  /** Some dispute on this attestation is not closed yet. */
  predicate HasOpenDispute(d: Docket, k: Key) {
    exists i :: 0 <= i < |d.IdsByKey(k)| && d.IdsByKey(k)[i] in d.disputes
                && d.disputes[d.IdsByKey(k)[i]].status != Closed
  }

  predicate HasExistingDispute(d: Docket, who: Address, k: Key) {
    exists i :: 0 <= i < |d.IdsByKey(k)| && d.IdsByKey(k)[i] in d.disputes
                && d.disputes[d.IdsByKey(k)[i]].challenger == who
  }

  function Lock(locks: map<Address, nat>, attestor: Option<Address>): map<Address, nat> {
    match attestor
    case None => locks
    case Some(a) => locks[a := Get(locks, a, 0) + 1]
  }

  /** Releasing an unlocked attestor is a no-op; the entry disappears at zero. */
  function Unlock(locks: map<Address, nat>, attestor: Option<Address>): map<Address, nat> {
    match attestor
    case None => locks
    case Some(a) =>
      if Get(locks, a, 0) == 0 then locks
      else if Get(locks, a, 0) == 1 then locks - {a}
      else locks[a := Get(locks, a, 0) - 1]
  }

  /** `live` says that the attestation exists and is not revoked; `submitter` is the attestor
      stored with it, if any. */
  function OpenDispute(d: Docket, who: Address, k: Key, evidence: string, now: nat, live: bool,
                       submitter: Option<Address>)
    : Option<Docket>
  {
    if !live || HasOpenDispute(d, k) || HasExistingDispute(d, who, k) || d.counter >= U64_MAX then None
    else
      var id := d.counter + 1;
      Some(d.(
        counter := id,
        disputes := d.disputes[id := Dispute(id, who, k, submitter.GetOr(k.business), Open, evidence, now, None)],
        byKey := d.byKey[k := d.IdsByKey(k) + [id]],
        byChallenger := d.byChallenger[who := d.IdsByChallenger(who) + [id]],
        lockCounts := Lock(d.lockCounts, Lookup(d.attestors, k))))
  }

  function SetStatus(d: Docket, id: nat, status: Status, r: Resolution): Docket
    requires id in d.disputes
  {
    d.(disputes := d.disputes[id := d.disputes[id].(status := status, resolution := Some(r))],
       resolutions := d.resolutions[id := r])
  }

  /** `slashOk` is the verdict of the staking contract when an upheld dispute is slashed. */
  function ResolveDispute(d: Docket, id: nat, r: Resolution, slashOk: bool): Option<Docket> {
    if id !in d.disputes || d.disputes[id].status != Open || (r.outcome.Upheld? && !slashOk) then None
    else Some(SetStatus(d, id, Resolved, r).(
      lockCounts := Unlock(d.lockCounts, Lookup(d.attestors, d.disputes[id].key))))
  }

  function CloseDispute(d: Docket, id: nat): Option<Docket> {
    if id !in d.disputes || d.disputes[id].status != Resolved then None
    else Some(d.(disputes := d.disputes[id := d.disputes[id].(status := Closed)]))
  }

  /** A verified Merkle witness resolves the dispute but does not release the attestor. */
  function WitnessDispute(d: Docket, id: nat, now: nat, proofOk: bool): Option<Docket> {
    if id !in d.disputes || d.disputes[id].status != Open || !proofOk then None
    else Some(SetStatus(d, id, Resolved, Resolution(d.disputes[id].challenger, Upheld, now, WITNESS_NOTE)))
  }

  predicate Overdue(d: Docket, id: nat, now: nat) {
    && id in d.disputes
    && d.disputes[id].status == Open
    && SatSub(now, d.disputes[id].timestamp) > d.deadline
  }

  function RollBackOne(d: Docket, id: nat, now: nat): Docket
    requires id in d.disputes
  {
    SetStatus(d, id, Closed, Resolution(d.disputes[id].challenger, Declined, now, ROLLBACK_NOTE)).(
      lockCounts := Unlock(d.lockCounts, Lookup(d.attestors, d.disputes[id].key)))
  }

  datatype Rolled = Rolled(docket: Docket, count: nat)

  /** Rolls back the overdue ones among `ids`, in order, at most `limit` of them. */
  function RollBack(d: Docket, ids: seq<nat>, limit: nat, now: nat): Rolled {
    if ids == [] then Rolled(d, 0)
    else
      var before := RollBack(d, ids[..|ids| - 1], limit, now);
      var id := ids[|ids| - 1];
      if before.count >= limit || !Overdue(before.docket, id, now) then before
      else Rolled(RollBackOne(before.docket, id, now), before.count + 1)
  }

  function SetDeadline(d: Docket, seconds: nat): Option<Docket> {
    if MIN_DISPUTE_DEADLINE_SECONDS <= seconds <= MAX_DISPUTE_DEADLINE_SECONDS
    then Some(d.(deadline := seconds)) else None
  }

  function StoreAttestor(d: Docket, k: Key, a: Address): Docket {
    d.(attestors := d.attestors[k := a])
  }

  /* ---------- Counting ---------- */

  predicate IsOpenFor(d: Docket, id: nat, a: Address) {
    && id in d.disputes
    && d.disputes[id].status == Open
    && Lookup(d.attestors, d.disputes[id].key) == Some(a)
  }

  /** Open disputes among the first `n` ids whose attestation was submitted by `a`. */
  function OpenCount(d: Docket, n: nat, a: Address): nat {
    if n == 0 then 0 else OpenCount(d, n - 1, a) + if IsOpenFor(d, n, a) then 1 else 0
  }

  function IdsOnKey(d: Docket, n: nat, k: Key): seq<nat> {
    if n == 0 then []
    else IdsOnKey(d, n - 1, k) + if n in d.disputes && d.disputes[n].key == k then [n] else []
  }

  function IdsFrom(d: Docket, n: nat, who: Address): seq<nat> {
    if n == 0 then []
    else IdsFrom(d, n - 1, who) + if n in d.disputes && d.disputes[n].challenger == who then [n] else []
  }

  lemma {:induction false} IdsOnKeyMeaning(d: Docket, n: nat, k: Key)
    ensures Increasing(IdsOnKey(d, n, k))
    ensures forall id: nat :: id in IdsOnKey(d, n, k) <==> 1 <= id <= n && id in d.disputes && d.disputes[id].key == k
  {
    if n > 0 {
      IdsOnKeyMeaning(d, n - 1, k);
      var shorter := IdsOnKey(d, n - 1, k);
      assert forall i :: 0 <= i < |shorter| ==> shorter[i] in shorter;
    }
  }

  lemma {:induction false} IdsFromMeaning(d: Docket, n: nat, who: Address)
    ensures Increasing(IdsFrom(d, n, who))
    ensures forall id: nat :: id in IdsFrom(d, n, who)
              <==> 1 <= id <= n && id in d.disputes && d.disputes[id].challenger == who
  {
    if n > 0 {
      IdsFromMeaning(d, n - 1, who);
      var shorter := IdsFrom(d, n - 1, who);
      assert forall i :: 0 <= i < |shorter| ==> shorter[i] in shorter;
    }
  }

  /** The identity of a dispute: everything the indexes look at. */
  ghost predicate SameParties(d: Docket, e: Docket) {
    && d.disputes.Keys == e.disputes.Keys
    && forall id :: id in d.disputes ==>
         d.disputes[id].key == e.disputes[id].key && d.disputes[id].challenger == e.disputes[id].challenger
  }

  lemma {:induction false} SamePartiesSameIds(d: Docket, e: Docket, n: nat, k: Key, who: Address)
    requires forall id: nat :: 1 <= id <= n ==> (id in d.disputes <==> id in e.disputes)
    requires forall id: nat :: 1 <= id <= n && id in d.disputes ==>
               d.disputes[id].key == e.disputes[id].key && d.disputes[id].challenger == e.disputes[id].challenger
    ensures IdsOnKey(d, n, k) == IdsOnKey(e, n, k)
    ensures IdsFrom(d, n, who) == IdsFrom(e, n, who)
  {
    if n > 0 {
      SamePartiesSameIds(d, e, n - 1, k, who);
    }
  }

  /** Counts agree when every id is equally open for `a`, except that `x` stops being so. */
  lemma {:induction false} OpenCountDrops(d: Docket, e: Docket, n: nat, a: Address, x: nat)
    requires 1 <= x
    requires forall id: nat :: id != x ==> (IsOpenFor(d, id, a) <==> IsOpenFor(e, id, a))
    requires !IsOpenFor(e, x, a)
    ensures OpenCount(e, n, a) == OpenCount(d, n, a) - if x <= n && IsOpenFor(d, x, a) then 1 else 0
  {
    if n > 0 {
      OpenCountDrops(d, e, n - 1, a, x);
    }
  }

  lemma {:induction false} OpenCountSame(d: Docket, e: Docket, n: nat, a: Address)
    requires forall id: nat :: 1 <= id <= n ==> (IsOpenFor(d, id, a) <==> IsOpenFor(e, id, a))
    ensures OpenCount(e, n, a) == OpenCount(d, n, a)
  {
    if n > 0 {
      OpenCountSame(d, e, n - 1, a);
    }
  }

  /* ---------- The structural invariant, over every operation ---------- */

  ghost predicate IndexesOk(d: Docket) {
    && (forall k :: d.IdsByKey(k) == IdsOnKey(d, d.counter, k))
    && (forall who :: d.IdsByChallenger(who) == IdsFrom(d, d.counter, who))
  }

  ghost predicate OneLivePerAttestation(d: Docket) {
    forall i, j :: i in d.disputes && j in d.disputes && i != j && d.disputes[i].key == d.disputes[j].key
      ==> d.disputes[i].status == Closed || d.disputes[j].status == Closed
  }

  ghost predicate OnePerChallenger(d: Docket) {
    forall i, j :: i in d.disputes && j in d.disputes && i != j && d.disputes[i].key == d.disputes[j].key
      ==> d.disputes[i].challenger != d.disputes[j].challenger
  }

  ghost predicate Inv(d: Docket) {
    && (forall id :: id in d.disputes <==> 1 <= id <= d.counter)
    && IndexesOk(d)
    && OneLivePerAttestation(d)
    && OnePerChallenger(d)
  }

  /** A step that keeps who disputes what and never reopens a closed dispute. */
  ghost predicate OnlyAdvances(d: Docket, e: Docket) {
    && e.counter == d.counter && e.byKey == d.byKey && e.byChallenger == d.byChallenger
    && SameParties(d, e)
    && forall id :: id in d.disputes && d.disputes[id].status == Closed ==> e.disputes[id].status == Closed
  }

  lemma AdvancingKeepsInv(d: Docket, e: Docket)
    requires Inv(d) && OnlyAdvances(d, e)
    ensures Inv(e)
  {
    forall k ensures e.IdsByKey(k) == IdsOnKey(e, e.counter, k) {
      SamePartiesSameIds(d, e, d.counter, k, k.business);
    }
    forall who ensures e.IdsByChallenger(who) == IdsFrom(e, e.counter, who) {
      SamePartiesSameIds(d, e, d.counter, Key(who, ""), who);
    }
  }

  /** Opening is refused exactly when some dispute of the attestation is unfinished or is the
      challenger's own: the index scans see every dispute there is. */
  lemma EligibilityMeaning(d: Docket, who: Address, k: Key)
    requires Inv(d)
    ensures HasOpenDispute(d, k) <==>
              exists id :: id in d.disputes && d.disputes[id].key == k && d.disputes[id].status != Closed
    ensures HasExistingDispute(d, who, k) <==>
              exists id :: id in d.disputes && d.disputes[id].key == k && d.disputes[id].challenger == who
  {
    IdsOnKeyMeaning(d, d.counter, k);
    var ids := d.IdsByKey(k);
    assert ids == IdsOnKey(d, d.counter, k);
    assert forall i :: 0 <= i < |ids| ==> ids[i] in ids;
    if id :| id in d.disputes && d.disputes[id].key == k && d.disputes[id].status != Closed {
      var i :| 0 <= i < |ids| && ids[i] == id;
    }
    if id :| id in d.disputes && d.disputes[id].key == k && d.disputes[id].challenger == who {
      var i :| 0 <= i < |ids| && ids[i] == id;
    }
  }

  /** The new dispute joins exactly the two lists it belongs to. */
  lemma OpenKeepsKeyIndex(d: Docket, e: Docket, who: Address, k: Key, evidence: string, now: nat, live: bool,
                          submitter: Option<Address>)
    requires Inv(d) && OpenDispute(d, who, k, evidence, now, live, submitter) == Some(e)
    ensures forall x :: e.IdsByKey(x) == IdsOnKey(e, e.counter, x)
  {
    forall x ensures e.IdsByKey(x) == IdsOnKey(e, e.counter, x) {
      SamePartiesSameIds(d, e, d.counter, x, who);
      assert d.IdsByKey(x) == IdsOnKey(d, d.counter, x);
    }
  }

  lemma OpenKeepsChallengerIndex(d: Docket, e: Docket, who: Address, k: Key, evidence: string, now: nat, live: bool,
                                 submitter: Option<Address>)
    requires Inv(d) && OpenDispute(d, who, k, evidence, now, live, submitter) == Some(e)
    ensures forall x :: e.IdsByChallenger(x) == IdsFrom(e, e.counter, x)
  {
    forall x ensures e.IdsByChallenger(x) == IdsFrom(e, e.counter, x) {
      SamePartiesSameIds(d, e, d.counter, k, x);
      assert d.IdsByChallenger(x) == IdsFrom(d, d.counter, x);
    }
  }

  lemma OpenKeepsInv(d: Docket, who: Address, k: Key, evidence: string, now: nat, live: bool,
                     submitter: Option<Address>)
    requires Inv(d) && OpenDispute(d, who, k, evidence, now, live, submitter).Some?
    ensures Inv(OpenDispute(d, who, k, evidence, now, live, submitter).value)
  {
    var e := OpenDispute(d, who, k, evidence, now, live, submitter).value;
    OpenKeepsKeyIndex(d, e, who, k, evidence, now, live, submitter);
    OpenKeepsChallengerIndex(d, e, who, k, evidence, now, live, submitter);
    EligibilityMeaning(d, who, k);
    assert forall id :: id in d.disputes ==> id != e.counter && e.disputes[id] == d.disputes[id];
    assert OneLivePerAttestation(e) && OnePerChallenger(e);
  }

  lemma {:induction false} RollBackAdvances(d: Docket, ids: seq<nat>, limit: nat, now: nat)
    ensures OnlyAdvances(d, RollBack(d, ids, limit, now).docket)
    ensures RollBack(d, ids, limit, now).count <= Min(limit, |ids|)
    ensures RollBack(d, ids, limit, now).docket.attestors == d.attestors
  {
    if ids != [] {
      RollBackAdvances(d, ids[..|ids| - 1], limit, now);
    }
  }

  /* ---------- Runs ---------- */

  /** One committed or aborted transaction. `Attests` is a submission that names an attestor. */
  datatype Call =
    | Opens(who: Address, key: Key, evidence: string, now: nat, live: bool, submitter: Option<Address>)
    | Resolves(id: nat, resolution: Resolution, slashOk: bool)
    | Closes(id: nat)
    | Witnesses(id: nat, now: nat, proofOk: bool)
    | RollsBack(ids: seq<nat>, limit: nat, now: nat)
    | SetsDeadline(seconds: nat)
    | Attests(key: Key, attestor: Address)

  function Attempt(d: Docket, c: Call): Option<Docket> {
    match c
    case Opens(who, k, evidence, now, live, submitter) => OpenDispute(d, who, k, evidence, now, live, submitter)
    case Resolves(id, r, slashOk) => ResolveDispute(d, id, r, slashOk)
    case Closes(id) => CloseDispute(d, id)
    case Witnesses(id, now, proofOk) => WitnessDispute(d, id, now, proofOk)
    case RollsBack(ids, limit, now) => Some(RollBack(d, ids, limit, now).docket)
    case SetsDeadline(seconds) => SetDeadline(d, seconds)
    case Attests(k, a) => Some(StoreAttestor(d, k, a))
  }

  function After(calls: seq<Call>): Docket {
    if calls == [] then Empty
    else
      var before := After(calls[..|calls| - 1]);
      Attempt(before, calls[|calls| - 1]).GetOr(before)
  }

  /** Rewriting one unfinished dispute without changing its parties is an advance. */
  lemma RewriteAdvances(d: Docket, e: Docket, id: nat, to: Dispute)
    requires id in d.disputes && d.disputes[id].status != Closed
    requires to.key == d.disputes[id].key && to.challenger == d.disputes[id].challenger
    requires e.disputes == d.disputes[id := to]
    requires e.counter == d.counter && e.byKey == d.byKey && e.byChallenger == d.byChallenger
    ensures OnlyAdvances(d, e)
  {
  }

  lemma OtherCallsAdvance(d: Docket, c: Call)
    requires !c.Opens? && !c.RollsBack?
    ensures OnlyAdvances(d, Attempt(d, c).GetOr(d))
  {
    if Attempt(d, c).Some? {
      var e := Attempt(d, c).value;
      match c
      case Resolves(id, r, slashOk) => RewriteAdvances(d, e, id, e.disputes[id]);
      case Closes(id) => RewriteAdvances(d, e, id, e.disputes[id]);
      case Witnesses(id, _, _) => RewriteAdvances(d, e, id, e.disputes[id]);
      case SetsDeadline(_) =>
      case Attests(_, _) =>
    }
  }

  lemma CallKeepsInv(d: Docket, c: Call)
    requires Inv(d)
    ensures Inv(Attempt(d, c).GetOr(d))
  {
    var e := Attempt(d, c).GetOr(d);
    match c
    case Opens(who, k, evidence, now, live, submitter) =>
      if OpenDispute(d, who, k, evidence, now, live, submitter).Some? {
        OpenKeepsInv(d, who, k, evidence, now, live, submitter);
      }
    case RollsBack(ids, limit, now) =>
      RollBackAdvances(d, ids, limit, now);
      AdvancingKeepsInv(d, e);
    case _ =>
      OtherCallsAdvance(d, c);
      AdvancingKeepsInv(d, e);
  }

  lemma {:induction false} EveryRunKeepsInv(calls: seq<Call>)
    ensures Inv(After(calls))
  {
    if calls == [] {
      forall k ensures Empty.IdsByKey(k) == IdsOnKey(Empty, 0, k) {}
    } else {
      EveryRunKeepsInv(calls[..|calls| - 1]);
      CallKeepsInv(After(calls[..|calls| - 1]), calls[|calls| - 1]);
    }
  }

  /** In every run both indexes list exactly the matching ids in increasing order, at most one
      dispute per attestation is unfinished, and nobody disputes an attestation twice. */
  lemma EveryDocketIsOrderly(calls: seq<Call>, k: Key, who: Address)
    ensures
      var d := After(calls);
      && Increasing(d.IdsByKey(k)) && Increasing(d.IdsByChallenger(who))
      && (forall id: nat :: id in d.IdsByKey(k) <==> id in d.disputes && d.disputes[id].key == k)
      && (forall id: nat :: id in d.IdsByChallenger(who) <==> id in d.disputes && d.disputes[id].challenger == who)
      && OneLivePerAttestation(d)
      && OnePerChallenger(d)
  {
    EveryRunKeepsInv(calls);
    var d := After(calls);
    IdsOnKeyMeaning(d, d.counter, k);
    IdsFromMeaning(d, d.counter, who);
  }

  /** Later states of one dispute: same parties, and a closed one is not touched again. */
  ghost predicate Continues(d: Docket, e: Docket, id: nat) {
    && id in d.disputes
    && id in e.disputes
    && e.disputes[id].key == d.disputes[id].key
    && e.disputes[id].challenger == d.disputes[id].challenger
    && (d.disputes[id].status == Closed ==> e.disputes[id] == d.disputes[id])
  }

  lemma {:induction false} RollBackContinues(d: Docket, ids: seq<nat>, limit: nat, now: nat, id: nat)
    requires id in d.disputes
    ensures Continues(d, RollBack(d, ids, limit, now).docket, id)
  {
    if ids != [] {
      RollBackContinues(d, ids[..|ids| - 1], limit, now, id);
    }
  }

  lemma CallContinues(d: Docket, c: Call, id: nat)
    requires Inv(d) && id in d.disputes
    ensures Continues(d, Attempt(d, c).GetOr(d), id)
  {
    if c.RollsBack? {
      RollBackContinues(d, c.ids, c.limit, c.now, id);
    }
  }

  /** A closed dispute stays closed, and a dispute never changes hands. */
  lemma {:induction false} ClosedIsForever(calls: seq<Call>, more: seq<Call>, id: nat)
    requires id in After(calls).disputes
    ensures Continues(After(calls), After(calls + more), id)
  {
    if more == [] {
      assert calls + more == calls;
    } else {
      var front, last := more[..|more| - 1], more[|more| - 1];
      assert (calls + more)[..|calls + more| - 1] == calls + front;
      ClosedIsForever(calls, front, id);
      EveryRunKeepsInv(calls + front);
      CallContinues(After(calls + front), last, id);
    }
  }

  /** Open for longer than the deadline. */
  ghost predicate Late(d: Docket, id: nat, now: nat) {
    id in d.disputes && d.disputes[id].status == Open && now > d.disputes[id].timestamp + d.deadline
  }

  /** `e` differs from `d` only in late disputes among `ids`, which it closes against their
      challengers. */
  ghost predicate ClosesOnlyLate(d: Docket, e: Docket, ids: seq<nat>, now: nat) {
    && e.deadline == d.deadline
    && e.disputes.Keys == d.disputes.Keys
    && forall id :: id in d.disputes && e.disputes[id] != d.disputes[id] ==>
         && id in ids && Late(d, id, now)
         && e.disputes[id] == d.disputes[id].(
              status := Closed,
              resolution := Some(Resolution(d.disputes[id].challenger, Declined, now, ROLLBACK_NOTE)))
         && Lookup(e.resolutions, id) == e.disputes[id].resolution
  }

  lemma OverdueMeansLate(d: Docket, id: nat, now: nat)
    ensures Overdue(d, id, now) <==> Late(d, id, now)
  {
  }

  /** A rollback closes late disputes from its list and nothing else. Unless it stopped at its
      limit, every listed dispute that was open for longer than the deadline is closed. */
  lemma {:induction false} RollBackIsExact(d: Docket, ids: seq<nat>, limit: nat, now: nat)
    ensures ClosesOnlyLate(d, RollBack(d, ids, limit, now).docket, ids, now)
    ensures RollBack(d, ids, limit, now).count < limit ==>
              forall i :: 0 <= i < |ids| && Late(d, ids[i], now) ==>
                RollBack(d, ids, limit, now).docket.disputes[ids[i]].status == Closed
  {
    if ids != [] {
      var front, id := ids[..|ids| - 1], ids[|ids| - 1];
      RollBackIsExact(d, front, limit, now);
      var before, after := RollBack(d, front, limit, now), RollBack(d, ids, limit, now);
      OverdueMeansLate(before.docket, id, now);
      if after.count < limit {
        forall i | 0 <= i < |ids| && Late(d, ids[i], now) ensures after.docket.disputes[ids[i]].status == Closed {
          if i < |front| {
            assert front[i] == ids[i];
          }
        }
      }
    }
  }

  /* ---------- When the operations commit ---------- */

  /** Exactly when a dispute can be opened, and what is recorded. */
  lemma OpenCommitsIff(d: Docket, who: Address, k: Key, evidence: string, now: nat, live: bool,
                       submitter: Option<Address>)
    requires Inv(d)
    ensures OpenDispute(d, who, k, evidence, now, live, submitter).Some? <==>
              && live && d.counter < U64_MAX
              && (forall id :: id in d.disputes && d.disputes[id].key == k ==>
                    d.disputes[id].status == Closed && d.disputes[id].challenger != who)
    ensures OpenDispute(d, who, k, evidence, now, live, submitter).Some? ==>
              var e := OpenDispute(d, who, k, evidence, now, live, submitter).value;
              && e.counter == d.counter + 1
              && e.disputes.Keys == d.disputes.Keys + {e.counter}
              && e.disputes[e.counter].challenger == who && e.disputes[e.counter].key == k
              && e.disputes[e.counter].attestor == submitter.GetOr(k.business)
              && e.disputes[e.counter].evidence == evidence && e.disputes[e.counter].timestamp == now
              && e.disputes[e.counter].status == Open && e.disputes[e.counter].resolution == None
  {
    EligibilityMeaning(d, who, k);
  }

  /** Which calls move a dispute from one status to another, over any call that commits. An open
      one is resolved by its resolution or a verified witness, a resolved one closed by a close,
      and an open one closed only by a rollback that finds it late. */
  lemma StatusMovesOnlyForward(d: Docket, c: Call, e: Docket, id: nat)
    requires Inv(d) && Attempt(d, c) == Some(e) && id in d.disputes
    ensures id in e.disputes
    ensures d.disputes[id].status == Open && e.disputes[id].status == Resolved <==>
              (c.Resolves? || c.Witnesses?) && c.id == id
    ensures d.disputes[id].status == Resolved && e.disputes[id].status == Closed <==> c.Closes? && c.id == id
    ensures d.disputes[id].status == Open && e.disputes[id].status == Closed ==>
              c.RollsBack? && id in c.ids && Late(d, id, c.now)
    ensures e.disputes[id].status == Open ==> d.disputes[id].status == Open
    ensures e.disputes[id].status == Resolved ==> d.disputes[id].status != Closed
    ensures c.Resolves? && c.id == id ==>
              (c.resolution.outcome.Upheld? ==> c.slashOk) && e.disputes[id].resolution == Some(c.resolution)
    ensures c.Witnesses? && c.id == id ==>
              c.proofOk && e.disputes[id].resolution ==
                           Some(Resolution(d.disputes[id].challenger, Upheld, c.now, WITNESS_NOTE))
  {
    if c.RollsBack? {
      RollBackIsExact(d, c.ids, c.limit, c.now);
    }
  }

  /** And each of those calls commits whenever its guard holds. */
  lemma DecisionsCommitIff(d: Docket, id: nat, r: Resolution, slashOk: bool, now: nat, proofOk: bool)
    ensures ResolveDispute(d, id, r, slashOk).Some? <==>
              id in d.disputes && d.disputes[id].status == Open && (r.outcome.Upheld? ==> slashOk)
    ensures WitnessDispute(d, id, now, proofOk).Some? <==>
              id in d.disputes && d.disputes[id].status == Open && proofOk
    ensures CloseDispute(d, id).Some? <==> id in d.disputes && d.disputes[id].status == Resolved
  {
  }

  /** One hour to ninety days; the deadline then holds for every dispute, open ones included. */
  lemma DeadlineCommitsIff(d: Docket, seconds: nat)
    ensures SetDeadline(d, seconds).Some? <==> 60 * 60 <= seconds && seconds <= 90 * 24 * 60 * 60
    ensures SetDeadline(d, seconds).Some? ==> SetDeadline(d, seconds).value == d.(deadline := seconds)
  {
  }

  function Changed(d: Docket, e: Docket): set<nat> {
    set id | id in d.disputes && id in e.disputes && e.disputes[id] != d.disputes[id]
  }

  /** The count that a rollback reports is the number of disputes it closed, at most its limit. */
  lemma {:induction false} RollBackCountsClosed(d: Docket, ids: seq<nat>, limit: nat, now: nat)
    ensures RollBack(d, ids, limit, now).count == |Changed(d, RollBack(d, ids, limit, now).docket)| <= limit
  {
    if ids == [] {
      assert Changed(d, d) == {};
    } else {
      var front, id := ids[..|ids| - 1], ids[|ids| - 1];
      RollBackCountsClosed(d, front, limit, now);
      RollBackIsExact(d, front, limit, now);
      var before, after := RollBack(d, front, limit, now), RollBack(d, ids, limit, now);
      if before.count < limit && Overdue(before.docket, id, now) {
        assert id !in Changed(d, before.docket);
        assert Changed(d, after.docket) == Changed(d, before.docket) + {id};
      }
    }
  }

  /* ---------- The attestor lock ---------- */

  ghost predicate OpenOn(d: Docket, k: Key) {
    exists id :: id in d.disputes && d.disputes[id].key == k && d.disputes[id].status == Open
  }

  /** A submission changes who is recorded for an attestation that has an open dispute. */
  ghost predicate Displaces(d: Docket, c: Call) {
    c.Attests? && OpenOn(d, c.key) && Lookup(d.attestors, c.key) != Some(c.attestor)
  }

  /** A witness resolves a dispute on an attestation that has an attestor. */
  predicate Strands(d: Docket, c: Call) {
    c.Witnesses? && Attempt(d, c).Some? && d.disputes[c.id].key in d.attestors
  }

  ghost predicate Settled(d: Docket, c: Call) {
    !Displaces(d, c)
  }

  ghost predicate AllSettled(calls: seq<Call>) {
    calls != [] ==>
      && AllSettled(calls[..|calls| - 1])
      && Settled(After(calls[..|calls| - 1]), calls[|calls| - 1])
  }

  /** The witness resolution of `c`, if it commits, leaves `a` locked. */
  predicate Leaks(d: Docket, c: Call, a: Address) {
    c.Witnesses? && Attempt(d, c).Some? && IsOpenFor(d, c.id, a)
  }

  function Leaked(calls: seq<Call>, a: Address): nat {
    if calls == [] then 0
    else
      var front := calls[..|calls| - 1];
      Leaked(front, a) + if Leaks(After(front), calls[|calls| - 1], a) then 1 else 0
  }

  /** How far the lock count of `a` runs ahead of its open disputes. */
  function Excess(d: Docket, a: Address): int {
    d.Locks(a) - OpenCount(d, d.counter, a)
  }

  lemma OpenKeepsExcess(d: Docket, e: Docket, c: Call, a: Address)
    requires Inv(d) && c.Opens? && Attempt(d, c) == Some(e)
    ensures Excess(e, a) == Excess(d, a)
  {
    OpenCountSame(d, e, d.counter, a);
  }

  /** Finishing an open dispute and releasing its attestor, as a resolution and a rollback do. */
  lemma ReleaseKeepsExcess(d: Docket, e: Docket, id: nat, a: Address)
    requires id in d.disputes && 1 <= id <= d.counter && d.disputes[id].status == Open
    requires e.counter == d.counter && e.attestors == d.attestors
    requires id in e.disputes && e.disputes[id].status != Open
    requires e.disputes == d.disputes[id := e.disputes[id]]
    requires e.lockCounts == Unlock(d.lockCounts, Lookup(d.attestors, d.disputes[id].key))
    requires Excess(d, a) >= 0
    ensures Excess(e, a) == Excess(d, a)
  {
    forall x: nat | x != id ensures IsOpenFor(d, x, a) <==> IsOpenFor(e, x, a) {}
    OpenCountDrops(d, e, d.counter, a, id);
  }

  lemma {:induction false} RollBackKeepsExcess(d: Docket, ids: seq<nat>, limit: nat, now: nat, a: Address)
    requires Inv(d) && Excess(d, a) >= 0
    ensures Excess(RollBack(d, ids, limit, now).docket, a) == Excess(d, a)
  {
    if ids != [] {
      var front, id := ids[..|ids| - 1], ids[|ids| - 1];
      RollBackKeepsExcess(d, front, limit, now, a);
      RollBackAdvances(d, front, limit, now);
      var before := RollBack(d, front, limit, now);
      if before.count < limit && Overdue(before.docket, id, now) {
        ReleaseKeepsExcess(before.docket, RollBackOne(before.docket, id, now), id, a);
      }
    }
  }

  lemma WitnessExcess(d: Docket, e: Docket, c: Call, a: Address)
    requires Inv(d) && c.Witnesses? && Attempt(d, c) == Some(e)
    ensures Excess(e, a) == Excess(d, a) + if Leaks(d, c, a) then 1 else 0
  {
    forall x: nat | x != c.id ensures IsOpenFor(d, x, a) <==> IsOpenFor(e, x, a) {}
    OpenCountDrops(d, e, d.counter, a, c.id);
  }

  lemma AttestKeepsExcess(d: Docket, e: Docket, c: Call, a: Address)
    requires c.Attests? && Settled(d, c) && Attempt(d, c) == Some(e)
    ensures Excess(e, a) == Excess(d, a)
  {
    forall x: nat ensures IsOpenFor(d, x, a) <==> IsOpenFor(e, x, a) {
      assert Lookup(d.attestors, c.key) != Some(c.attestor) ==> !OpenOn(d, c.key);
    }
    OpenCountSame(d, e, d.counter, a);
  }

  lemma CallExcess(d: Docket, c: Call, a: Address)
    requires Inv(d) && Settled(d, c) && Excess(d, a) >= 0
    ensures Excess(Attempt(d, c).GetOr(d), a) == Excess(d, a) + if Leaks(d, c, a) then 1 else 0
  {
    var e := Attempt(d, c).GetOr(d);
    if Attempt(d, c).Some? {
      match c
      case Opens(_, _, _, _, _, _) => OpenKeepsExcess(d, e, c, a);
      case Resolves(id, _, _) => ReleaseKeepsExcess(d, e, id, a);
      case Closes(id) =>
        forall x: nat ensures IsOpenFor(d, x, a) <==> IsOpenFor(e, x, a) {}
        OpenCountSame(d, e, d.counter, a);
      case Witnesses(_, _, _) => WitnessExcess(d, e, c, a);
      case RollsBack(ids, limit, now) => RollBackKeepsExcess(d, ids, limit, now, a);
      case SetsDeadline(_) => OpenCountSame(d, e, d.counter, a);
      case Attests(_, _) => AttestKeepsExcess(d, e, c, a);
    }
  }

  lemma {:induction false} ExcessIsLeaked(calls: seq<Call>, a: Address)
    requires AllSettled(calls)
    ensures Excess(After(calls), a) == Leaked(calls, a)
  {
    if calls != [] {
      var front := calls[..|calls| - 1];
      ExcessIsLeaked(front, a);
      EveryRunKeepsInv(front);
      CallExcess(After(front), calls[|calls| - 1], a);
    }
  }

  /** In every run the lock count of an attestor is the number of open disputes on its
      attestations plus the witness resolutions that hit it. So the lock is exact if and only
      if no witness ever resolved a dispute against this attestor; otherwise it outlives them. */
  lemma LockCountsOpenDisputesIff(calls: seq<Call>, a: Address)
    requires AllSettled(calls)
    ensures After(calls).Locks(a) == OpenCount(After(calls), After(calls).counter, a) + Leaked(calls, a)
    ensures After(calls).Locks(a) == OpenCount(After(calls), After(calls).counter, a) <==> Leaked(calls, a) == 0
  {
    ExcessIsLeaked(calls, a);
  }

  lemma {:induction false} OpenCountGrows(d: Docket, e: Docket, n: nat, a: Address, x: nat)
    requires forall id: nat :: IsOpenFor(d, id, a) ==> IsOpenFor(e, id, a)
    requires 1 <= x && !IsOpenFor(d, x, a) && IsOpenFor(e, x, a)
    ensures OpenCount(e, n, a) >= OpenCount(d, n, a) + if x <= n then 1 else 0
  {
    if n > 0 {
      OpenCountGrows(d, e, n - 1, a, x);
    }
  }

  /** The new attestor answers for a dispute it was never locked for. */
  lemma DisplacingLowersExcess(d: Docket, e: Docket, c: Call)
    requires Inv(d) && Displaces(d, c) && Attempt(d, c) == Some(e)
    ensures Excess(e, c.attestor) < Excess(d, c.attestor)
  {
    var x :| x in d.disputes && d.disputes[x].key == c.key && d.disputes[x].status == Open;
    forall id: nat | IsOpenFor(d, id, c.attestor) ensures IsOpenFor(e, id, c.attestor) {}
    OpenCountGrows(d, e, d.counter, c.attestor, x);
  }

  /** Every attestor is locked once per open dispute on its attestations. */
  ghost predicate LockLaw(d: Docket) {
    forall a :: Excess(d, a) == 0
  }

  /** Exactly which calls break the lock law: a witness that resolves a dispute on an attestor's
      attestation, and a submission that displaces the attestor under an open dispute. */
  lemma LockLawBreaksIff(d: Docket, c: Call)
    requires Inv(d) && LockLaw(d)
    ensures LockLaw(Attempt(d, c).GetOr(d)) <==> !Strands(d, c) && !Displaces(d, c)
  {
    var e := Attempt(d, c).GetOr(d);
    if Displaces(d, c) {
      DisplacingLowersExcess(d, e, c);
      assert Excess(d, c.attestor) == 0;
    } else if Strands(d, c) {
      var a := d.attestors[d.disputes[c.id].key];
      assert Leaks(d, c, a) && Excess(d, a) == 0;
      CallExcess(d, c, a);
    } else {
      forall a ensures Excess(e, a) == 0 {
        assert Excess(d, a) == 0;
        CallExcess(d, c, a);
      }
    }
  }

  ghost predicate LawThroughout(calls: seq<Call>) {
    forall n: nat :: n <= |calls| ==> LockLaw(After(calls[..n]))
  }

  ghost predicate NeverBreaks(calls: seq<Call>) {
    forall n: nat :: n < |calls| ==> !Strands(After(calls[..n]), calls[n]) && !Displaces(After(calls[..n]), calls[n])
  }

  lemma {:induction false} UnbrokenUpTo(calls: seq<Call>, n: nat)
    requires NeverBreaks(calls) && n <= |calls|
    ensures LockLaw(After(calls[..n]))
  {
    if n == 0 {
      assert calls[..0] == [];
    } else {
      UnbrokenUpTo(calls, n - 1);
      StepOf(calls, n - 1);
      EveryRunKeepsInv(calls[..n - 1]);
      LockLawBreaksIff(After(calls[..n - 1]), calls[n - 1]);
    }
  }

  lemma StepOf(calls: seq<Call>, n: nat)
    requires n < |calls|
    ensures After(calls[..n + 1]) == Attempt(After(calls[..n]), calls[n]).GetOr(After(calls[..n]))
  {
    assert calls[..n + 1][..n] == calls[..n];
  }

  /** The lock law holds at every point of a run if and only if no call of the run strands or
      displaces an attestor. */
  lemma LockLawHoldsThroughoutIff(calls: seq<Call>)
    ensures LawThroughout(calls) <==> NeverBreaks(calls)
  {
    if NeverBreaks(calls) {
      forall n: nat | n <= |calls| ensures LockLaw(After(calls[..n])) {
        UnbrokenUpTo(calls, n);
      }
    }
    if LawThroughout(calls) {
      forall n: nat | n < |calls|
        ensures !Strands(After(calls[..n]), calls[n]) && !Displaces(After(calls[..n]), calls[n])
      {
        assert LockLaw(After(calls[..n])) && LockLaw(After(calls[..n + 1]));
        StepOf(calls, n);
        EveryRunKeepsInv(calls[..n]);
        LockLawBreaksIff(After(calls[..n]), calls[n]);
      }
    }
  }

  lemma AfterOneMore(calls: seq<Call>, c: Call)
    ensures After(calls + [c]) == Attempt(After(calls), c).GetOr(After(calls))
    ensures forall a :: Leaked(calls + [c], a) == Leaked(calls, a) + if Leaks(After(calls), c, a) then 1 else 0
  {
    assert (calls + [c])[..|calls|] == calls;
  }

  /** Without `AllSettled` the law fails: an attestation archived and submitted again under an
      open dispute locks one attestor and releases another. */
  lemma ReplacedAttestorStaysLocked(k: Key, first: Address, second: Address, who: Address, r: Resolution)
    returns (calls: seq<Call>)
    requires first != second
    ensures forall id :: id in After(calls).disputes ==> After(calls).disputes[id].status != Open
    ensures After(calls).Locks(first) == 1 && Leaked(calls, first) == 0
  {
    var archived := [Attests(k, first)];
    AfterOneMore([], Attests(k, first));
    assert [] + archived == archived;
    var disputed := archived + [Opens(who, k, "", 0, true, Some(first))];
    AfterOneMore(archived, Opens(who, k, "", 0, true, Some(first)));
    var replaced := disputed + [Attests(k, second)];
    AfterOneMore(disputed, Attests(k, second));
    calls := replaced + [Resolves(1, r, true)];
    AfterOneMore(replaced, Resolves(1, r, true));
  }

  /* ---------- The contract ---------- */

  lemma {:induction false} RollBackStops(d: Docket, ids: seq<nat>, limit: nat, now: nat, n: nat)
    requires n <= |ids| && RollBack(d, ids[..n], limit, now).count >= limit
    ensures RollBack(d, ids, limit, now) == RollBack(d, ids[..n], limit, now)
  {
    if n == |ids| {
      assert ids[..n] == ids;
    } else {
      var front := ids[..|ids| - 1];
      assert front[..n] == ids[..n];
      RollBackStops(d, front, limit, now, n);
    }
  }

  class DisputeContract {
    var counter: nat
    var disputes: map<nat, Dispute>
    var resolutions: map<nat, Resolution>
    var byKey: map<Key, seq<nat>>
    var byChallenger: map<Address, seq<nat>>
    var attestors: map<Key, Address>
    var lockCounts: map<Address, nat>
    var deadline: nat

    function Model(): Docket
      reads this
    {
      Docket(counter, disputes, resolutions, byKey, byChallenger, attestors, lockCounts, deadline)
    }

    constructor ()
      ensures Model() == Empty
    {
      counter, disputes, resolutions := 0, map[], map[];
      byKey, byChallenger, attestors, lockCounts := map[], map[], map[], map[];
      deadline := DISPUTE_DEADLINE_SECONDS;
    }

    method HasOpen(k: Key) returns (found: bool)
      ensures found == HasOpenDispute(Model(), k)
    {
      var ids := Get(byKey, k, []);
      assert ids == Model().IdsByKey(k);
      for i := 0 to |ids|
        invariant forall j :: 0 <= j < i ==> !(ids[j] in disputes && disputes[ids[j]].status != Closed)
      {
        assert Model().IdsByKey(k)[i] == ids[i];
        if ids[i] in disputes {
          if disputes[ids[i]].status == Open || disputes[ids[i]].status == Resolved {
            return true;
          }
        }
      }
      return false;
    }

    method HasExisting(who: Address, k: Key) returns (found: bool)
      ensures found == HasExistingDispute(Model(), who, k)
    {
      var ids := Get(byKey, k, []);
      assert ids == Model().IdsByKey(k);
      for i := 0 to |ids|
        invariant forall j :: 0 <= j < i ==> !(ids[j] in disputes && disputes[ids[j]].challenger == who)
      {
        assert Model().IdsByKey(k)[i] == ids[i];
        if ids[i] in disputes && disputes[ids[i]].challenger == who {
          return true;
        }
      }
      return false;
    }

    method LockAttestor(a: Address)
      modifies this`lockCounts
      ensures lockCounts == Lock(old(lockCounts), Some(a))
    {
      lockCounts := lockCounts[a := Get(lockCounts, a, 0) + 1];
    }

    /** Says whether the attestor is free afterwards. */
    method UnlockAttestor(a: Address) returns (free: bool)
      modifies this`lockCounts
      ensures lockCounts == Unlock(old(lockCounts), Some(a))
      ensures free == (Get(lockCounts, a, 0) == 0)
    {
      var current := Get(lockCounts, a, 0);
      if current == 0 {
        return true;
      }
      if current - 1 == 0 {
        lockCounts := lockCounts - {a};
        return true;
      }
      lockCounts := lockCounts[a := current - 1];
      return false;
    }

    method FileDispute(who: Address, k: Key, evidence: string, now: nat, live: bool, submitter: Option<Address>)
      returns (ok: bool, id: nat)
      modifies this
      ensures Tx(ok, OpenDispute(old(Model()), who, k, evidence, now, live, submitter), old(Model()), Model())
      ensures ok ==> id == old(counter) + 1
    {
      var inFlight := HasOpen(k);
      var repeated := HasExisting(who, k);
      if !live || inFlight || repeated || counter >= U64_MAX {
        return false, 0;
      }
      counter := counter + 1;
      id := counter;
      disputes := disputes[id := Dispute(id, who, k, submitter.GetOr(k.business), Open, evidence, now, None)];
      byKey := byKey[k := Get(byKey, k, []) + [id]];
      byChallenger := byChallenger[who := Get(byChallenger, who, []) + [id]];
      if k in attestors {
        LockAttestor(attestors[k]);
      }
      ok := true;
    }

    method Resolve(id: nat, r: Resolution, slashOk: bool) returns (ok: bool)
      modifies this
      ensures Tx(ok, ResolveDispute(old(Model()), id, r, slashOk), old(Model()), Model())
    {
      if id !in disputes || disputes[id].status != Open || (r.outcome.Upheld? && !slashOk) {
        return false;
      }
      resolutions := resolutions[id := r];
      disputes := disputes[id := disputes[id].(status := Resolved, resolution := Some(r))];
      if disputes[id].key in attestors {
        var _ := UnlockAttestor(attestors[disputes[id].key]);
      }
      return true;
    }

    method Close(id: nat) returns (ok: bool)
      modifies this
      ensures Tx(ok, CloseDispute(old(Model()), id), old(Model()), Model())
    {
      if id !in disputes || disputes[id].status != Resolved {
        return false;
      }
      disputes := disputes[id := disputes[id].(status := Closed)];
      return true;
    }

    method SubmitWitness(id: nat, now: nat, proofOk: bool) returns (ok: bool)
      modifies this
      ensures Tx(ok, WitnessDispute(old(Model()), id, now, proofOk), old(Model()), Model())
    {
      if id !in disputes || disputes[id].status != Open || !proofOk {
        return false;
      }
      var r := Resolution(disputes[id].challenger, Upheld, now, WITNESS_NOTE);
      disputes := disputes[id := disputes[id].(status := Resolved, resolution := Some(r))];
      resolutions := resolutions[id := r];
      return true;
    }

    method CheckAndRollBack(ids: seq<nat>, limit: nat, now: nat) returns (count: nat)
      modifies this
      ensures Rolled(Model(), count) == RollBack(old(Model()), ids, limit, now)
    {
      count := 0;
      for i := 0 to |ids|
        invariant Rolled(Model(), count) == RollBack(old(Model()), ids[..i], limit, now)
      {
        if count >= limit {
          RollBackStops(old(Model()), ids, limit, now, i);
          return;
        }
        assert ids[..i + 1][..i] == ids[..i];
        var id := ids[i];
        if id !in disputes {
          continue;
        }
        if disputes[id].status != Open {
          continue;
        }
        var elapsed := if now >= disputes[id].timestamp then now - disputes[id].timestamp else 0;
        if elapsed <= deadline {
          continue;
        }
        var r := Resolution(disputes[id].challenger, Declined, now, ROLLBACK_NOTE);
        disputes := disputes[id := disputes[id].(status := Closed, resolution := Some(r))];
        resolutions := resolutions[id := r];
        if disputes[id].key in attestors {
          var _ := UnlockAttestor(attestors[disputes[id].key]);
        }
        count := count + 1;
      }
      assert ids[..|ids|] == ids;
    }

    method SetDisputeDeadline(seconds: nat) returns (ok: bool)
      modifies this
      ensures Tx(ok, SetDeadline(old(Model()), seconds), old(Model()), Model())
    {
      ok := MIN_DISPUTE_DEADLINE_SECONDS <= seconds <= MAX_DISPUTE_DEADLINE_SECONDS;
      if ok {
        deadline := seconds;
      }
    }

    method StoreAttestorFor(k: Key, a: Address)
      modifies this
      ensures Model() == StoreAttestor(old(Model()), k, a)
    {
      attestors := attestors[k := a];
    }
  }
}
