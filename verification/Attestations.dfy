/** Attestation submission (contracts/attestation/src/lib.rs): the single path, the batch path,
    and the operations that revoke, migrate and clean up what they stored. Both submission
    paths go through the rate limiter, the epoch counter and the fee schedules.
 */
module Attestations {
  import opened Base
  import RateLimit
  import DynamicFees
  import Epochs
  import FlatFees

  const MAX_BATCH_SIZE: nat := 25
  const BACKFILL_CHECKPOINT_INTERVAL: nat := 100

  datatype AttestationData = AttestationData(
    root: Hash,
    timestamp: nat,
    version: nat,
    fee: int,
    proofHash: Option<Hash>,
    expiry: Option<nat>)

  datatype Revocation = Revocation(revoker: Address, timestamp: nat, reason: string)

  /** Published events, in order. The backfill commitment digests exactly the count and the
      root, so the two stand for it. */
  datatype Event =
    | Submitted(key: Key, data: AttestationData)
    | EpochCheckpoint(period: Period, root: Hash, submissions: nat, fees: int, at: nat)
    | BackfillCheckpoint(count: nat, root: Hash)
    | Boundary(note: Epochs.Note)
    | Revoked(key: Key, revoker: Address, reason: string)
    | Migrated(key: Key, oldRoot: Hash, newRoot: Hash, oldVersion: nat, newVersion: nat, migrator: Address)
    | CleanedUp(key: Key, at: nat)
    | RangeIssued(business: Address, start: nat, end: nat, root: Hash)
    | FeesConfigured(dynamic: DynamicFees.FeeConfig, admin: Address)
    | FlatFeeConfigured(flatFee: FlatFees.FlatFeeConfig, admin: Address)

  /** Only validated limits are ever stored, and bracket lists always have equal length. */
  type Limiter = l: RateLimit.Limiter | l.Valid() witness RateLimit.Empty
  type Schedule = s: DynamicFees.Schedule | s.Paired() witness DynamicFees.Free

  datatype Ledger = Ledger(
    limiter: Limiter,
    schedule: Schedule,
    clock: Epochs.Clock,
    flat: FlatFees.Book,
    bank: map<Address, Balances>,
    attestations: map<Key, AttestationData>,
    attestors: map<Key, Address>,
    revocations: map<Key, Revocation>,
    epochSubs: map<Period, nat>,
    epochFees: map<Period, int>,
    backfill: nat,
    events: seq<Event>)

  const Genesis := Ledger(RateLimit.Empty, DynamicFees.Free, Epochs.Unstarted, FlatFees.Blank,
                          map[], map[], map[], map[], map[], map[], 0, [])

  /** What a transaction sees besides the ledger. */
  datatype Env = Env(now: nat, paused: bool, active: set<Address>)

  datatype Item = Item(
    key: Key,
    root: Hash,
    timestamp: nat,
    version: nat,
    proofHash: Option<Hash>,
    expiry: Option<nat>)

  /* ---------- Fees ---------- */

  datatype Charged = Charged(bank: map<Address, Balances>, fee: int)

  function Pay(bank: map<Address, Balances>, token: Address, from: Address, to: Address, amount: int)
    : Option<map<Address, Balances>>
  {
    match Transfer(Get(bank, token, map[]), from, to, amount)
    case None => None
    case Some(balances) => Some(bank[token := balances])
  }

  function CollectDynamic(s: Schedule, bank: map<Address, Balances>, payer: Address, b: Address): Option<Charged> {
    match DynamicFees.CalculateFee(s, b)
    case None => None
    case Some(fee) =>
      if fee <= 0 || s.config.None? then Some(Charged(bank, fee))
      else
        match Pay(bank, s.config.value.token, payer, s.config.value.collector, fee)
        case None => None
        case Some(after) => Some(Charged(after, fee))
  }

  function CollectFlat(c: Option<FlatFees.FlatFeeConfig>, bank: map<Address, Balances>, payer: Address)
    : Option<Charged>
  {
    var fee := FlatFees.ChargedAmount(c);
    if fee == 0 then Some(Charged(bank, 0))
    else
      match Pay(bank, c.value.token, payer, c.value.collector, fee)
      case None => None
      case Some(after) => Some(Charged(after, fee))
  }

  /** Both fees, one after the other; their sum must fit. */
  function Charge(l: Ledger, payer: Address, b: Address): Option<Charged> {
    match CollectDynamic(l.schedule, l.bank, payer, b)
    case None => None
    case Some(dynamic) =>
      match CollectFlat(l.flat.config, dynamic.bank, payer)
      case None => None
      case Some(flat) =>
        if FitsI128(dynamic.fee + flat.fee) then Some(Charged(flat.bank, dynamic.fee + flat.fee)) else None
  }

  /* ---------- Submission ---------- */

  predicate ValidExpiry(item: Item, now: nat) {
    item.expiry.Some? ==> item.expiry.value > item.timestamp && item.expiry.value > now
  }

  predicate ValidProof(item: Item) {
    item.proofHash != Some(ZERO_HASH)
  }

  predicate Acceptable(l: Ledger, env: Env, item: Item) {
    && !env.paused
    && item.key.business in env.active
    && item.key !in l.attestations
    && ValidExpiry(item, env.now)
    && ValidProof(item)
  }

  function Boundaries(notes: seq<Epochs.Note>): seq<Event> {
    if notes == [] then [] else Boundaries(notes[..|notes| - 1]) + [Boundary(notes[|notes| - 1])]
  }

  function RollEpoch(l: Ledger, now: nat): Ledger {
    var clock := Epochs.RollOver(l.clock, now);
    l.(clock := clock,
       events := l.events + Boundaries(if |l.clock.log| <= |clock.log| then clock.log[|l.clock.log|..] else []))
  }

  function DataOf(item: Item, fee: int): AttestationData {
    AttestationData(item.root, item.timestamp, item.version, fee, item.proofHash, item.expiry)
  }

  /** The attestation itself, its events, the running totals of its period, and the limiter. */
  function Write(l: Ledger, env: Env, item: Item, fee: int): Ledger {
    var data := DataOf(item, fee);
    var period := item.key.period;
    var subs := SatAdd(Get(l.epochSubs, period, 0), 1, U64_MAX);
    var fees := SatAddI128(Get(l.epochFees, period, 0), fee);
    var count := SatAdd(l.backfill, 1, U64_MAX);
    l.(
      attestations := l.attestations[item.key := data],
      epochSubs := l.epochSubs[period := subs],
      epochFees := l.epochFees[period := fees],
      backfill := count,
      limiter := RateLimit.Record(l.limiter, item.key.business, env.now),
      events := l.events + [Submitted(item.key, data)] + [EpochCheckpoint(period, item.root, subs, fees, env.now)]
                + if count % BACKFILL_CHECKPOINT_INTERVAL == 0 then [BackfillCheckpoint(count, item.root)] else [])
  }

  /** Everything a submission changes once its fee is paid. */
  function Store(l: Ledger, env: Env, attestor: Option<Address>, item: Item, c: Charged): Option<Ledger> {
    match DynamicFees.Attempt(l.schedule, DynamicFees.Counts(item.key.business))
    case None => None
    case Some(schedule) =>
      var attestors := if attestor.Some? then l.attestors[item.key := attestor.value] else l.attestors;
      Some(Write(l.(schedule := schedule, bank := c.bank, attestors := attestors), env, item, c.fee))
  }

  /** The part of a submission that both paths run per item. */
  function Perform(l: Ledger, env: Env, payer: Address, attestor: Option<Address>, item: Item): Option<Ledger> {
    match RateLimit.Check(l.limiter, item.key.business, env.now)
    case None => None
    case Some(limiter) =>
      var rolled := RollEpoch(l.(limiter := limiter), env.now);
      match Charge(rolled, payer, item.key.business)
      case None => None
      case Some(charged) => Store(rolled, env, attestor, item, charged)
  }

  /** The single path: checks and effects interleave, and any abort rolls everything back. */
  function Execute(l: Ledger, env: Env, payer: Address, attestor: Option<Address>, item: Item): Option<Ledger> {
    if Acceptable(l, env, item) then Perform(l, env, payer, attestor, item) else None
  }

  /** In a batch every business pays for itself unless one attestor pays for all. */
  function PayerOf(attestor: Option<Address>, item: Item): Address {
    attestor.GetOr(item.key.business)
  }

  function Performs(l: Ledger, env: Env, attestor: Option<Address>, items: seq<Item>): Option<Ledger> {
    if items == [] then Some(l)
    else
      var last := items[|items| - 1];
      match Performs(l, env, attestor, items[..|items| - 1])
      case None => None
      case Some(before) => Perform(before, env, PayerOf(attestor, last), attestor, last)
  }

  predicate DistinctKeys(items: seq<Item>) {
    forall i, j :: 0 <= i < j < |items| ==> items[i].key != items[j].key
  }

  predicate AllAcceptable(l: Ledger, env: Env, items: seq<Item>) {
    forall i :: 0 <= i < |items| ==> Acceptable(l, env, items[i])
  }

  /** The batch path: validates everything against the ledger before it, then performs. */
  function ExecuteBatch(l: Ledger, env: Env, attestor: Option<Address>, items: seq<Item>): Option<Ledger> {
    if 1 <= |items| <= MAX_BATCH_SIZE && AllAcceptable(l, env, items) && DistinctKeys(items)
    then Performs(l, env, attestor, items)
    else None
  }

  /** The single path run on each item in turn, stopping at the first abort. */
  function ExecuteInTurn(l: Ledger, env: Env, attestor: Option<Address>, items: seq<Item>): Option<Ledger> {
    if items == [] then Some(l)
    else
      var last := items[|items| - 1];
      match ExecuteInTurn(l, env, attestor, items[..|items| - 1])
      case None => None
      case Some(before) => Execute(before, env, PayerOf(attestor, last), attestor, last)
  }

  function KeysOf(items: seq<Item>): set<Key> {
    set item | item in items :: item.key
  }

  ghost predicate AddsKeys(l: Ledger, after: Ledger, added: set<Key>) {
    after.attestations.Keys == l.attestations.Keys + added
  }

  lemma PerformAddsOneKey(l: Ledger, env: Env, payer: Address, attestor: Option<Address>, item: Item, after: Ledger)
    requires Perform(l, env, payer, attestor, item) == Some(after)
    ensures AddsKeys(l, after, {item.key})
  {
  }

  lemma KeysOfLast(front: seq<Item>, item: Item)
    ensures KeysOf(front + [item]) == KeysOf(front) + {item.key}
  {
    assert forall x :: x in front + [item] <==> x in front || x == item;
  }

  /** The last step of a committed batch, by what it adds. */
  lemma PerformsLast(l: Ledger, env: Env, attestor: Option<Address>, items: seq<Item>, after: Ledger)
    returns (before: Ledger)
    requires items != [] && Performs(l, env, attestor, items) == Some(after)
    ensures Performs(l, env, attestor, items[..|items| - 1]) == Some(before)
    ensures AddsKeys(before, after, {items[|items| - 1].key})
  {
    var last := items[|items| - 1];
    before := Performs(l, env, attestor, items[..|items| - 1]).value;
    PerformAddsOneKey(before, env, PayerOf(attestor, last), attestor, last, after);
  }

  lemma {:induction false} PerformsAddTheirKeys(l: Ledger, env: Env, attestor: Option<Address>, items: seq<Item>,
                                                after: Ledger)
    requires Performs(l, env, attestor, items) == Some(after)
    ensures AddsKeys(l, after, KeysOf(items))
  {
    if items != [] {
      var front, last := items[..|items| - 1], items[|items| - 1];
      var before := PerformsLast(l, env, attestor, items, after);
      PerformsAddTheirKeys(l, env, attestor, front, before);
      KeysOfLast(front, last);
      assert items == front + [last];
    }
  }

  /** After a prefix of the batch, the next item is acceptable exactly when it was acceptable
      before the batch and its key does not repeat. */
  lemma AcceptableLater(l: Ledger, m: Ledger, env: Env, attestor: Option<Address>, front: seq<Item>, item: Item)
    requires Performs(l, env, attestor, front) == Some(m)
    ensures Acceptable(m, env, item) <==>
              Acceptable(l, env, item) && item.key !in KeysOf(front)
  {
    PerformsAddTheirKeys(l, env, attestor, front, m);
  }

  lemma SplitLast(l: Ledger, env: Env, front: seq<Item>, item: Item)
    ensures AllAcceptable(l, env, front + [item]) <==> AllAcceptable(l, env, front) && Acceptable(l, env, item)
    ensures DistinctKeys(front + [item]) <==>
              DistinctKeys(front) && item.key !in KeysOf(front)
  {
    var all := front + [item];
    assert all[|front|] == item;
    assert forall i :: 0 <= i < |front| ==> all[i] == front[i];
  }

  /** One more item, once the items before it were validated and performed. */
  lemma OneMoreItem(l: Ledger, m: Ledger, env: Env, attestor: Option<Address>, front: seq<Item>, item: Item)
    requires AllAcceptable(l, env, front) && DistinctKeys(front) && Performs(l, env, attestor, front) == Some(m)
    ensures Acceptable(m, env, item) <==> AllAcceptable(l, env, front + [item]) && DistinctKeys(front + [item])
  {
    SplitLast(l, env, front, item);
    AcceptableLater(l, m, env, attestor, front, item);
  }

  lemma OneMoreInTurn(l: Ledger, env: Env, attestor: Option<Address>, items: seq<Item>, validFront: bool, valid: bool)
    requires items != []
    requires
      var front, last := items[..|items| - 1], items[|items| - 1];
      && ExecuteInTurn(l, env, attestor, front) == (if validFront then Performs(l, env, attestor, front) else None)
      && (valid ==> validFront)
      && (validFront && Performs(l, env, attestor, front).Some? ==>
            (valid <==> Acceptable(Performs(l, env, attestor, front).value, env, last)))
    ensures ExecuteInTurn(l, env, attestor, items) == if valid then Performs(l, env, attestor, items) else None
  {
  }

  lemma {:induction false} InTurnIsValidateThenPerform(l: Ledger, env: Env, attestor: Option<Address>, items: seq<Item>)
    ensures ExecuteInTurn(l, env, attestor, items) ==
              if AllAcceptable(l, env, items) && DistinctKeys(items) then Performs(l, env, attestor, items) else None
  {
    if items != [] {
      var front, last := items[..|items| - 1], items[|items| - 1];
      assert items == front + [last];
      InTurnIsValidateThenPerform(l, env, attestor, front);
      var validFront := AllAcceptable(l, env, front) && DistinctKeys(front);
      SplitLast(l, env, front, last);
      if validFront && Performs(l, env, attestor, front).Some? {
        OneMoreItem(l, Performs(l, env, attestor, front).value, env, attestor, front, last);
      }
      OneMoreInTurn(l, env, attestor, items, validFront, AllAcceptable(l, env, items) && DistinctKeys(items));
    }
  }

  /** A batch of 1 to 25 items is the single path run on its items in order at the same ledger
      time: it commits exactly when every step would, and it ends in the very same ledger,
      fees, token balances, rate-limit lists, epochs, counters and events included. */
  lemma BatchIsSequential(l: Ledger, env: Env, attestor: Option<Address>, items: seq<Item>)
    ensures ExecuteBatch(l, env, attestor, items) ==
              if 1 <= |items| <= MAX_BATCH_SIZE then ExecuteInTurn(l, env, attestor, items) else None
  {
    InTurnIsValidateThenPerform(l, env, attestor, items);
  }

  /* ---------- After submission ---------- */

  /** `authorized`: the caller is the business or an admin. */
  function Revoke(l: Ledger, env: Env, caller: Address, key: Key, reason: string, authorized: bool): Option<Ledger> {
    if env.paused || key !in l.attestations || key in l.revocations || !authorized then None
    else Some(l.(
      revocations := l.revocations[key := Revocation(caller, env.now, reason)],
      events := l.events + [Revoked(key, caller, reason)]))
  }

  predicate Expired(data: AttestationData, now: nat) {
    data.expiry.Some? && now >= data.expiry.value
  }

  function Migrate(l: Ledger, env: Env, caller: Address, key: Key, root: Hash, version: nat): Option<Ledger> {
    if key !in l.attestations then None
    else
      var data := l.attestations[key];
      if version <= data.version || Expired(data, env.now) || key in l.revocations then None
      else Some(l.(
        attestations := l.attestations[key := data.(root := root, version := version)],
        events := l.events + [Migrated(key, data.root, root, data.version, version, caller)]))
  }

  /** `disputed`: a dispute on the attestation is unfinished. */
  function CleanUp(l: Ledger, env: Env, key: Key, disputed: bool): Option<Ledger> {
    if key !in l.attestations || !Expired(l.attestations[key], env.now) || key in l.revocations || disputed then None
    else Some(l.(
      attestations := l.attestations - {key},
      clock := Epochs.CountCleanup(l.clock),
      events := l.events + [CleanedUp(key, env.now)]))
  }

  /** A multi-period submission, as far as this ledger sees it: `free` says that the range is
      well-formed and overlaps no active one. It pays the dynamic fee only and raises the
      counter of the business, but passes neither the limiter nor the epoch rollover. */
  function IssueRange(l: Ledger, b: Address, start: nat, end: nat, root: Hash, free: bool): Option<Ledger> {
    match CollectDynamic(l.schedule, l.bank, b, b)
    case None => None
    case Some(charged) =>
      var schedule := DynamicFees.Attempt(l.schedule, DynamicFees.Counts(b));
      if !free || schedule.None? then None
      else Some(l.(
        schedule := schedule.value,
        bank := charged.bank,
        events := l.events + [RangeIssued(b, start, end, root)]))
  }

  /** Configuring the fees publishes what is stored then, and so does switching them, provided
      that a configuration is stored. Tiers and brackets change without an event. */
  function FeeNotice(c: DynamicFees.Call, s: Schedule, admin: Address): seq<Event> {
    if (c.Configures? || c.Enables?) && s.config.Some? then [FeesConfigured(s.config.value, admin)] else []
  }

  /** Only submissions and ranges count attestations. */
  function ChangeFees(l: Ledger, c: DynamicFees.Call, admin: Address): Option<Ledger> {
    if c.Counts? then None
    else
      match DynamicFees.Attempt(l.schedule, c)
      case None => None
      case Some(schedule) => Some(l.(schedule := schedule, events := l.events + FeeNotice(c, schedule, admin)))
  }

  function FlatFeeNotice(c: FlatFees.Call, admin: Address): seq<Event> {
    if c.Configures? then [FlatFeeConfigured(c.config, admin)] else []
  }

  /** Moving the flat fee's own epoch publishes nothing. */
  function ChangeFlatFee(l: Ledger, c: FlatFees.Call, admin: Address): Option<Ledger> {
    match FlatFees.Attempt(l.flat, c)
    case None => None
    case Some(book) => Some(l.(flat := book, events := l.events + FlatFeeNotice(c, admin)))
  }

  /** What a business is quoted for its next attestation. */
  function Quote(l: Ledger, b: Address): Option<int> {
    match DynamicFees.CalculateFee(l.schedule, b)
    case None => None
    case Some(fee) =>
      var total := fee + FlatFees.QuotedAmount(l.flat.config);
      if FitsI128(total) then Some(total) else None
  }
}
