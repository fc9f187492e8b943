/** The append-only audit log (contracts/audit-log/src/lib.rs): a hash chain with one
    secondary index per actor and one per source contract, guarded by an admin nonce.

    SHA-256 over the encoded entry is a parameter. Results that need it say so with
    `CollisionFree`: different inputs have different digests, none of them all-zero.
 */
module AuditLog {
  import opened Base

  datatype Content = Content(
    seqNo: nat,
    actor: Address,
    source: Address,
    action: string,
    payload: string,
    ledgerSeq: nat,
    prevHash: Hash)

  datatype Record = Record(content: Content, entryHash: Hash)

  type Digest = Content -> Hash

  datatype Log = Log(
    admin: Option<Address>,
    entries: map<nat, Record>,
    nextSeq: nat,
    lastHash: Hash,
    actorIndex: map<Address, seq<nat>>,
    contractIndex: map<Address, seq<nat>>,
    nonces: map<Address, nat>)

  const Empty := Log(None, map[], 0, ZERO_HASH, map[], map[], map[])

  ghost predicate CollisionFree(hash: Digest) {
    && (forall x, y :: hash(x) == hash(y) ==> x == y)
    && (forall x :: hash(x) != ZERO_HASH)
  }

  /* ---------- Specification of the operations ---------- */

  /** Consumes the caller's nonce when it is the expected one. */
  function UseNonce(nonces: map<Address, nat>, who: Address, nonce: nat): Option<map<Address, nat>> {
    if nonce == Get(nonces, who, 0) && nonce < U64_MAX then Some(nonces[who := nonce + 1]) else None
  }

  function Initialize(l: Log, admin: Address, nonce: nat): Option<Log> {
    match UseNonce(l.nonces, admin, nonce)
    case None => None
    case Some(nonces) =>
      if l.admin.Some? then None
      else Some(l.(admin := Some(admin), nextSeq := 0, lastHash := ZERO_HASH, nonces := nonces))
  }

  function Append(l: Log, hash: Digest, nonce: nat, actor: Address, source: Address,
    action: string, payload: string, ledgerSeq: nat): Option<Log>
  {
    if l.admin.None? then None
    else
      match UseNonce(l.nonces, l.admin.value, nonce)
      case None => None
      case Some(nonces) =>
        if l.nextSeq >= U64_MAX then None
        else
          var content := Content(l.nextSeq, actor, source, action, payload, ledgerSeq, l.lastHash);
          Some(Log(
            l.admin,
            l.entries[l.nextSeq := Record(content, hash(content))],
            l.nextSeq + 1,
            hash(content),
            l.actorIndex[actor := Get(l.actorIndex, actor, []) + [l.nextSeq]],
            l.contractIndex[source := Get(l.contractIndex, source, []) + [l.nextSeq]],
            nonces))
  }

  /* ---------- The chain ---------- */

  /** What the entry after the first `n` must name as its predecessor. */
  function HashBefore(entries: map<nat, Record>, n: nat): Hash {
    if n == 0 || n - 1 !in entries then ZERO_HASH else entries[n - 1].entryHash
  }

  ghost predicate Linked(hash: Digest, entries: map<nat, Record>, i: nat) {
    && i in entries
    && entries[i].content.seqNo == i
    && entries[i].content.prevHash == HashBefore(entries, i)
    && entries[i].entryHash == hash(entries[i].content)
  }

  /** The first `n` entries form a hash chain that ends in `head`. */
  ghost predicate Chain(hash: Digest, entries: map<nat, Record>, n: nat, head: Hash) {
    && (forall i: nat :: i < n ==> Linked(hash, entries, i))
    && head == HashBefore(entries, n)
  }

  /** Tamper evidence: two valid chains, of whatever lengths, that end in the same head hash
      are the same chain, entry for entry. */
  lemma {:induction false} HeadDeterminesChain(hash: Digest, e1: map<nat, Record>, n1: nat,
    e2: map<nat, Record>, n2: nat, head: Hash)
    requires CollisionFree(hash)
    requires Chain(hash, e1, n1, head) && Chain(hash, e2, n2, head)
    ensures n1 == n2
    ensures forall i: nat :: i < n1 ==> i in e1 && i in e2 && e1[i] == e2[i]
  {
    assert n1 > 0 ==> Linked(hash, e1, n1 - 1);
    assert n2 > 0 ==> Linked(hash, e2, n2 - 1);
    if n1 > 0 && n2 > 0 {
      assert hash(e1[n1 - 1].content) == hash(e2[n2 - 1].content);
      assert e1[n1 - 1] == e2[n2 - 1] && n1 - 1 == n2 - 1;
      HeadDeterminesChain(hash, e1, n1 - 1, e2, n2 - 1, e1[n1 - 1].content.prevHash);
    }
  }

  /* ---------- The indexes ---------- */

  /** The two ways an entry is indexed. */
  datatype Side = ByActor | BySource

  function Party(c: Content, side: Side): Address {
    if side.ByActor? then c.actor else c.source
  }

  function Indexed(l: Log, side: Side, a: Address): seq<nat> {
    Get(if side.ByActor? then l.actorIndex else l.contractIndex, a, [])
  }

  /** The sequence numbers below `n` whose entry names `a`, in increasing order. */
  function SeqsOf(entries: map<nat, Record>, n: nat, side: Side, a: Address): seq<nat> {
    if n == 0 then []
    else
      SeqsOf(entries, n - 1, side, a)
      + if n - 1 in entries && Party(entries[n - 1].content, side) == a then [n - 1] else []
  }

  lemma {:induction false} SeqsMeaning(entries: map<nat, Record>, n: nat, side: Side, a: Address)
    ensures Increasing(SeqsOf(entries, n, side, a))
    ensures forall i: nat :: i in SeqsOf(entries, n, side, a)
              <==> i < n && i in entries && Party(entries[i].content, side) == a
  {
    if n > 0 {
      SeqsMeaning(entries, n - 1, side, a);
      var shorter := SeqsOf(entries, n - 1, side, a);
      assert forall i :: 0 <= i < |shorter| ==> shorter[i] in shorter;
    }
  }

  /** Entries beyond `n` do not affect either index. */
  lemma {:induction false} SeqsIgnoreLaterEntries(entries: map<nat, Record>, n: nat, k: nat, r: Record,
    side: Side, a: Address)
    requires n <= k
    ensures SeqsOf(entries[k := r], n, side, a) == SeqsOf(entries, n, side, a)
  {
    if n > 0 {
      SeqsIgnoreLaterEntries(entries, n - 1, k, r, side, a);
    }
  }

  /* ---------- Reachable logs ---------- */

  ghost predicate Inv(hash: Digest, l: Log) {
    && (forall i: nat :: i in l.entries <==> i < l.nextSeq)
    && Chain(hash, l.entries, l.nextSeq, l.lastHash)
    && (forall side, a :: Indexed(l, side, a) == SeqsOf(l.entries, l.nextSeq, side, a))
    && match l.admin
       case None => l.nextSeq == 0 && l.nonces == map[]
       case Some(admin) => Get(l.nonces, admin, 0) == l.nextSeq + 1
  }

  datatype Call =
    | Init(admin: Address, nonce: nat)
    | Add(nonce: nat, actor: Address, source: Address, action: string, payload: string, ledgerSeq: nat)

  function Apply(l: Log, hash: Digest, call: Call): Option<Log> {
    match call
    case Init(admin, nonce) => Initialize(l, admin, nonce)
    case Add(nonce, actor, source, action, payload, ledgerSeq) =>
      Append(l, hash, nonce, actor, source, action, payload, ledgerSeq)
  }

  function After(hash: Digest, calls: seq<Call>): Log {
    if calls == [] then Empty
    else
      var before := After(hash, calls[..|calls| - 1]);
      Apply(before, hash, calls[|calls| - 1]).GetOr(before)
  }

  lemma AppendKeepsChain(hash: Digest, entries: map<nat, Record>, n: nat, content: Content)
    requires Chain(hash, entries, n, content.prevHash) && content.seqNo == n
    ensures Chain(hash, entries[n := Record(content, hash(content))], n + 1, hash(content))
  {
    var longer := entries[n := Record(content, hash(content))];
    forall i: nat | i < n + 1 ensures Linked(hash, longer, i) {
      assert i < n ==> Linked(hash, entries, i);
    }
  }

  lemma ApplyKeepsInv(hash: Digest, l: Log, call: Call)
    requires Inv(hash, l) && Apply(l, hash, call).Some?
    ensures Inv(hash, Apply(l, hash, call).value)
  {
    if call.Add? {
      var next := Apply(l, hash, call).value;
      AppendKeepsChain(hash, l.entries, l.nextSeq, next.entries[l.nextSeq].content);
      AppendKeepsIndexes(hash, l, call);
    }
  }

  lemma AppendKeepsIndexes(hash: Digest, l: Log, call: Call)
    requires Inv(hash, l) && Apply(l, hash, call).Some? && call.Add?
    ensures forall side, a :: Indexed(Apply(l, hash, call).value, side, a)
                           == SeqsOf(Apply(l, hash, call).value.entries, l.nextSeq + 1, side, a)
  {
    var next := Apply(l, hash, call).value;
    forall side, a ensures Indexed(next, side, a) == SeqsOf(next.entries, next.nextSeq, side, a) {
      assert Indexed(l, side, a) == SeqsOf(l.entries, l.nextSeq, side, a);
      SeqsIgnoreLaterEntries(l.entries, l.nextSeq, l.nextSeq, next.entries[l.nextSeq], side, a);
    }
  }

  lemma {:induction false} Reachable(hash: Digest, calls: seq<Call>)
    ensures Inv(hash, After(hash, calls))
  {
    if calls != [] {
      Reachable(hash, calls[..|calls| - 1]);
      var before := After(hash, calls[..|calls| - 1]);
      if Apply(before, hash, calls[|calls| - 1]).Some? {
        ApplyKeepsInv(hash, before, calls[|calls| - 1]);
      }
    }
  }

  /** After any calls: the log is one valid chain and each index is exactly the increasing
      list of matching sequence numbers. */
  lemma ReachableLogIsChained(hash: Digest, calls: seq<Call>, side: Side, a: Address)
    ensures
      var l := After(hash, calls);
      && Chain(hash, l.entries, l.nextSeq, l.lastHash)
      && Increasing(Indexed(l, side, a))
      && (forall i: nat :: i in Indexed(l, side, a) <==> i in l.entries && Party(l.entries[i].content, side) == a)
  {
    Reachable(hash, calls);
    var l := After(hash, calls);
    SeqsMeaning(l.entries, l.nextSeq, side, a);
    assert Indexed(l, side, a) == SeqsOf(l.entries, l.nextSeq, side, a);
  }

  /** The admin's nonce is pinned to the log length, so an append commits exactly when it
      carries that nonce: no call can be replayed, reordered or skipped. */
  lemma AppendCommitsIff(hash: Digest, calls: seq<Call>, add: Call)
    requires add.Add?
    ensures
      var l := After(hash, calls);
      Apply(l, hash, add).Some? <==> l.admin.Some? && add.nonce == l.nextSeq + 1 && add.nonce < U64_MAX
  {
    Reachable(hash, calls);
  }

  /** An appended entry holds what it was called with, each part in its place, under the next
      number and on top of the previous head. */
  lemma AppendStoresTheCall(hash: Digest, l: Log, add: Call)
    requires add.Add? && Apply(l, hash, add).Some?
    ensures
      var next := Apply(l, hash, add).value;
      && next.nextSeq == l.nextSeq + 1 && l.nextSeq in next.entries
      && (var c := next.entries[l.nextSeq].content;
          && c.seqNo == l.nextSeq && c.prevHash == l.lastHash
          && c.actor == add.actor && c.source == add.source && c.action == add.action
          && c.payload == add.payload && c.ledgerSeq == add.ledgerSeq
          && next.lastHash == next.entries[l.nextSeq].entryHash == hash(c))
  {
  }

  /** Two reachable logs with the same head hash hold the same entries. */
  lemma SameHeadSameLog(hash: Digest, calls1: seq<Call>, calls2: seq<Call>)
    requires CollisionFree(hash)
    requires After(hash, calls1).lastHash == After(hash, calls2).lastHash
    ensures After(hash, calls1).entries == After(hash, calls2).entries
    ensures After(hash, calls1).nextSeq == After(hash, calls2).nextSeq
  {
    Reachable(hash, calls1);
    Reachable(hash, calls2);
    var l1, l2 := After(hash, calls1), After(hash, calls2);
    HeadDeterminesChain(hash, l1.entries, l1.nextSeq, l2.entries, l2.nextSeq, l1.lastHash);
  }

  /** Append-only: whatever is called later, an entry once written never changes. */
  lemma {:induction false} EntriesAreForever(hash: Digest, calls: seq<Call>, more: seq<Call>, i: nat)
    requires i in After(hash, calls).entries
    ensures i in After(hash, calls + more).entries
    ensures After(hash, calls + more).entries[i] == After(hash, calls).entries[i]
  {
    if more == [] {
      assert calls + more == calls;
    } else {
      EntriesAreForever(hash, calls, more[..|more| - 1], i);
      assert (calls + more)[..|calls + more| - 1] == calls + more[..|more| - 1];
      Reachable(hash, calls + more[..|more| - 1]);
    }
  }

  /* ---------- The contract's storage and entry points ---------- */

  class AuditLogContract {
    const hash: Digest
    var admin: Option<Address>
    var entries: map<nat, Record>
    var nextSeq: nat
    var lastHash: Hash
    var actorIndex: map<Address, seq<nat>>
    var contractIndex: map<Address, seq<nat>>
    var nonces: map<Address, nat>

    function Model(): Log
      reads this
    {
      Log(admin, entries, nextSeq, lastHash, actorIndex, contractIndex, nonces)
    }

    constructor (hash: Digest)
      ensures this.hash == hash && Model() == Empty
    {
      this.hash := hash;
      admin, entries, nextSeq, lastHash := None, map[], 0, ZERO_HASH;
      actorIndex, contractIndex, nonces := map[], map[], map[];
    }

    method InitializeAdmin(who: Address, nonce: nat) returns (ok: bool)
      modifies this
      ensures Tx(ok, Initialize(old(Model()), who, nonce), old(Model()), Model())
    {
      var current := Get(nonces, who, 0);
      if nonce != current || current >= U64_MAX || admin.Some? {
        return false;
      }
      nonces := nonces[who := current + 1];
      admin, nextSeq, lastHash := Some(who), 0, ZERO_HASH;
      return true;
    }

    method AppendEntry(nonce: nat, actor: Address, source: Address, action: string, payload: string, ledgerSeq: nat)
      returns (ok: bool, seqNo: nat)
      modifies this
      ensures Tx(ok, Append(old(Model()), hash, nonce, actor, source, action, payload, ledgerSeq),
                 old(Model()), Model())
      ensures ok ==> seqNo == old(nextSeq)
    {
      if admin.None? {
        return false, 0;
      }
      var current := Get(nonces, admin.value, 0);
      if nonce != current || current >= U64_MAX || nextSeq >= U64_MAX {
        return false, 0;
      }
      nonces := nonces[admin.value := current + 1];
      seqNo := nextSeq;
      var content := Content(seqNo, actor, source, action, payload, ledgerSeq, lastHash);
      var entryHash := hash(content);
      entries := entries[seqNo := Record(content, entryHash)];
      nextSeq := seqNo + 1;
      lastHash := entryHash;
      actorIndex := actorIndex[actor := Get(actorIndex, actor, []) + [seqNo]];
      contractIndex := contractIndex[source := Get(contractIndex, source, []) + [seqNo]];
      ok := true;
    }
  }
}
