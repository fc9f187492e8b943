/** What holds over whole runs of the attestation contract: the stored accumulators are a
    function of the published events, checkpoints can be reproduced from the stream, quotes
    are honoured, and no submission creates or destroys tokens.
 */
module AttestationRuns {
  import opened Base
  import opened Attestations
  import RateLimit
  import DynamicFees
  import Epochs
  import FlatFees

  datatype Call =
    | Submits(env: Env, payer: Address, attestor: Option<Address>, item: Item)
    | SubmitsBatch(env: Env, batchAttestor: Option<Address>, items: seq<Item>)
    | Revokes(env: Env, caller: Address, key: Key, reason: string, authorized: bool)
    | Migrates(env: Env, caller: Address, key: Key, root: Hash, version: nat)
    | CleansUp(env: Env, key: Key, disputed: bool)
    | SetsLimits(limits: RateLimit.Config)
    | SetsFees(fees: DynamicFees.Call, admin: Address)
    | SetsFlatFee(flat: FlatFees.Call, admin: Address)
    | IssuesRange(business: Address, start: nat, end: nat, rangeRoot: Hash, free: bool)
    | MovesTokens(token: Address, from: Address, to: Address, amount: int)

  function Attempt(l: Ledger, c: Call): Option<Ledger> {
    match c
    case Submits(env, payer, attestor, item) => Execute(l, env, payer, attestor, item)
    case SubmitsBatch(env, attestor, items) => ExecuteBatch(l, env, attestor, items)
    case Revokes(env, caller, key, reason, authorized) => Revoke(l, env, caller, key, reason, authorized)
    case Migrates(env, caller, key, root, version) => Migrate(l, env, caller, key, root, version)
    case CleansUp(env, key, disputed) => CleanUp(l, env, key, disputed)
    case SetsLimits(limits) =>
      if limits.Valid() then Some(l.(limiter := l.limiter.(config := Some(limits)))) else None
    case SetsFees(fees, admin) => ChangeFees(l, fees, admin)
    case SetsFlatFee(flat, admin) => ChangeFlatFee(l, flat, admin)
    case IssuesRange(b, start, end, root, free) => IssueRange(l, b, start, end, root, free)
    case MovesTokens(token, from, to, amount) =>
      var bank := Pay(l.bank, token, from, to, amount);
      if bank.Some? then Some(l.(bank := bank.value)) else None
  }

  function After(calls: seq<Call>): Ledger {
    if calls == [] then Genesis
    else
      var before := After(calls[..|calls| - 1]);
      Attempt(before, calls[|calls| - 1]).GetOr(before)
  }

  /* ---------- One submission, component by component ---------- */

  /** Pruning and rolling the epoch do not touch what a charge depends on. */
  lemma RollKeepsCharge(l: Ledger, limiter: Limiter, now: nat, payer: Address, b: Address)
    ensures Charge(RollEpoch(l.(limiter := limiter), now), payer, b) == Charge(l, payer, b)
  {
    var rolled := RollEpoch(l.(limiter := limiter), now);
    assert rolled.schedule == l.schedule && rolled.bank == l.bank && rolled.flat == l.flat;
  }

  lemma PerformSteps(l: Ledger, env: Env, payer: Address, attestor: Option<Address>, item: Item)
    ensures
      var checked := RateLimit.Check(l.limiter, item.key.business, env.now);
      var charged := Charge(l, payer, item.key.business);
      Perform(l, env, payer, attestor, item) ==
        if checked.None? || charged.None? then None
        else Store(RollEpoch(l.(limiter := checked.value), env.now), env, attestor, item, charged.value)
  {
    var checked := RateLimit.Check(l.limiter, item.key.business, env.now);
    if checked.Some? {
      RollKeepsCharge(l, checked.value, env.now, payer, item.key.business);
    }
  }

  /** Exactly when a submission commits: the item is acceptable, the limiter admits it, both
      fees can be paid, and the counter has room. */
  lemma SubmissionCommitsIff(l: Ledger, env: Env, payer: Address, attestor: Option<Address>, item: Item)
    ensures Execute(l, env, payer, attestor, item).Some? <==>
              && !env.paused && item.key.business in env.active
              && item.key !in l.attestations
              && (item.expiry.None? || (item.timestamp < item.expiry.value && env.now < item.expiry.value))
              && item.proofHash != Some(Hash(0))
              && RateLimit.Admit(l.limiter, item.key.business, env.now).Some?
              && Charge(l, payer, item.key.business).Some?
              && l.schedule.CountOf(item.key.business) < U64_MAX
  {
    PerformSteps(l, env, payer, attestor, item);
  }

  /** The events of one committed submission, read off the ledger it leaves. */
  function SubmissionEvents(item: Item, after: Ledger, now: nat): seq<Event>
    requires item.key in after.attestations
  {
    var period := item.key.period;
    [Submitted(item.key, after.attestations[item.key]),
     EpochCheckpoint(period, item.root, Get(after.epochSubs, period, 0), Get(after.epochFees, period, 0), now)]
    + if after.backfill % BACKFILL_CHECKPOINT_INTERVAL == 0 then [BackfillCheckpoint(after.backfill, item.root)] else []
  }

  /** What a committed submission leaves in every component: the limiter admitted it, the
      epoch rolled over, the charge went through, and only its own key and counter moved. */
  lemma SubmissionEffect(l: Ledger, env: Env, payer: Address, attestor: Option<Address>, item: Item, after: Ledger)
    requires Execute(l, env, payer, attestor, item) == Some(after)
    ensures RateLimit.Admit(l.limiter, item.key.business, env.now) == Some(after.limiter)
    ensures after.clock == Epochs.RollOver(l.clock, env.now)
    ensures
      var charged := Charge(l, payer, item.key.business);
      charged.Some? && after.bank == charged.value.bank
      && after.attestations == l.attestations[item.key := AttestationData(
           item.root, item.timestamp, item.version, charged.value.fee, item.proofHash, item.expiry)]
    ensures after.attestors == if attestor.Some? then l.attestors[item.key := attestor.value] else l.attestors
    ensures after.flat == l.flat && after.revocations == l.revocations
    ensures
      var b := item.key.business;
      after.schedule == l.schedule.(counts := l.schedule.counts[b := l.schedule.CountOf(b) + 1])
  {
    PerformSteps(l, env, payer, attestor, item);
  }

  /** The stored data are the item's, field by field. */
  ghost predicate Holds(data: AttestationData, item: Item) {
    && data.root == item.root && data.timestamp == item.timestamp && data.version == item.version
    && data.proofHash == item.proofHash && data.expiry == item.expiry
  }

  lemma PerformStoresTheItem(l: Ledger, env: Env, payer: Address, attestor: Option<Address>, item: Item, after: Ledger)
    requires Perform(l, env, payer, attestor, item) == Some(after)
    ensures item.key in after.attestations && Holds(after.attestations[item.key], item)
    ensures forall k :: k != item.key && k in l.attestations ==>
              k in after.attestations && after.attestations[k] == l.attestations[k]
  {
    PerformSteps(l, env, payer, attestor, item);
  }

  /** A committed submission stores root, timestamp, version, proof hash and expiry of its item,
      each in its own place. */
  lemma SubmissionStoresTheItem(l: Ledger, env: Env, payer: Address, attestor: Option<Address>, item: Item,
                                after: Ledger)
    requires Execute(l, env, payer, attestor, item) == Some(after)
    ensures item.key in after.attestations
    ensures
      var d := after.attestations[item.key];
      && d.root == item.root && d.timestamp == item.timestamp && d.version == item.version
      && d.proofHash == item.proofHash && d.expiry == item.expiry
  {
    PerformStoresTheItem(l, env, payer, attestor, item, after);
  }

  /** Every item of `items` is stored. */
  ghost predicate AllHeld(l: Ledger, items: seq<Item>) {
    forall i :: 0 <= i < |items| ==>
      items[i].key in l.attestations && Holds(l.attestations[items[i].key], items[i])
  }

  lemma OneMoreHeld(before: Ledger, after: Ledger, front: seq<Item>, item: Item)
    requires DistinctKeys(front + [item])
    requires item.key in after.attestations && Holds(after.attestations[item.key], item)
    requires forall k :: k != item.key && k in before.attestations ==>
               k in after.attestations && after.attestations[k] == before.attestations[k]
    ensures DistinctKeys(front)
    ensures AllHeld(before, front) ==> AllHeld(after, front + [item])
  {
    var all := front + [item];
    assert all[|front|] == item;
    assert forall i :: 0 <= i < |front| ==> all[i] == front[i];
    forall i | AllHeld(before, front) && 0 <= i < |all|
      ensures all[i].key in after.attestations && Holds(after.attestations[all[i].key], all[i]) {
      assert i < |front| ==> all[i] == front[i] && all[i].key != all[|front|].key;
    }
  }

  /** The last step of a committed batch. */
  lemma HeldLast(l: Ledger, env: Env, attestor: Option<Address>, items: seq<Item>, after: Ledger)
    returns (before: Ledger)
    requires items != [] && DistinctKeys(items) && Performs(l, env, attestor, items) == Some(after)
    ensures DistinctKeys(items[..|items| - 1])
    ensures Performs(l, env, attestor, items[..|items| - 1]) == Some(before)
    ensures AllHeld(before, items[..|items| - 1]) ==> AllHeld(after, items)
  {
    var front, last := items[..|items| - 1], items[|items| - 1];
    before := Performs(l, env, attestor, front).value;
    PerformStoresTheItem(before, env, PayerOf(attestor, last), attestor, last, after);
    assert items == front + [last];
    OneMoreHeld(before, after, front, last);
  }

  lemma {:induction false} PerformsStoreTheItems(l: Ledger, env: Env, attestor: Option<Address>, items: seq<Item>,
                                                 after: Ledger)
    requires DistinctKeys(items) && Performs(l, env, attestor, items) == Some(after)
    ensures AllHeld(after, items)
  {
    if items != [] {
      var before := HeldLast(l, env, attestor, items, after);
      PerformsStoreTheItems(l, env, attestor, items[..|items| - 1], before);
    }
  }

  /** So does a committed batch, for every one of its items. */
  lemma BatchStoresTheItems(l: Ledger, env: Env, attestor: Option<Address>, items: seq<Item>, after: Ledger, i: nat)
    requires ExecuteBatch(l, env, attestor, items) == Some(after) && i < |items|
    ensures items[i].key in after.attestations
    ensures
      var d := after.attestations[items[i].key];
      && d.root == items[i].root && d.timestamp == items[i].timestamp && d.version == items[i].version
      && d.proofHash == items[i].proofHash && d.expiry == items[i].expiry
  {
    PerformsStoreTheItems(l, env, attestor, items, after);
  }

  /** What a submission with this fee adds to the running totals and to the stream. */
  ghost predicate TotalsGrow(l: Ledger, after: Ledger, item: Item, fee: int, now: nat) {
    var period := item.key.period;
    && item.key in after.attestations
    && after.backfill == SatAdd(l.backfill, 1, U64_MAX)
    && after.epochSubs == l.epochSubs[period := SatAdd(Get(l.epochSubs, period, 0), 1, U64_MAX)]
    && after.epochFees == l.epochFees[period := SatAddI128(Get(l.epochFees, period, 0), fee)]
    && after.events == l.events + SubmissionEvents(item, after, now)
  }

  lemma StoreTotals(l: Ledger, env: Env, attestor: Option<Address>, item: Item, c: Charged, after: Ledger)
    requires Store(l, env, attestor, item, c) == Some(after)
    ensures TotalsGrow(l, after, item, c.fee, env.now)
  {
    var one, two := Submitted(item.key, after.attestations[item.key]), SubmissionEvents(item, after, env.now)[1];
    assert l.events + [one] + [two] == l.events + [one, two];
  }

  /** And what it adds to the running totals and, after the epoch boundaries, to the stream. */
  lemma SubmissionTotals(l: Ledger, env: Env, payer: Address, attestor: Option<Address>, item: Item, after: Ledger)
    requires Execute(l, env, payer, attestor, item) == Some(after)
    ensures Charge(l, payer, item.key.business).Some?
    ensures TotalsGrow(RollEpoch(l, env.now), after, item, Charge(l, payer, item.key.business).value.fee, env.now)
  {
    PerformSteps(l, env, payer, attestor, item);
    var checked := RateLimit.Check(l.limiter, item.key.business, env.now).value;
    var charged := Charge(l, payer, item.key.business).value;
    StoreTotals(RollEpoch(l.(limiter := checked), env.now), env, attestor, item, charged, after);
  }

  lemma QuoteVersusCharge(l: Ledger, payer: Address, b: Address)
    requires Charge(l, payer, b).Some?
    ensures Quote(l, b) == Some(Charge(l, payer, b).value.fee) <==>
              !(l.flat.config.Some? && l.flat.config.value.enabled && l.flat.config.value.amount < 0)
  {
    FlatFees.QuoteIsChargeIff(l.flat.config);
  }

  /** The quote is the fee stored by the next successful submission, unless an enabled flat fee
      has a negative amount: then the quote subtracts it and the submission does not. */
  lemma QuoteIsNextFeeIff(l: Ledger, env: Env, payer: Address, attestor: Option<Address>, item: Item, after: Ledger)
    requires Execute(l, env, payer, attestor, item) == Some(after)
    ensures item.key in after.attestations
    ensures Quote(l, item.key.business) == Some(after.attestations[item.key].fee) <==>
              !(l.flat.config.Some? && l.flat.config.value.enabled && l.flat.config.value.amount < 0)
  {
    SubmissionEffect(l, env, payer, attestor, item, after);
    QuoteVersusCharge(l, payer, item.key.business);
  }

  /* ---------- Tokens ---------- */

  function SupplyOf(bank: map<Address, Balances>, token: Address): Balances {
    Get(bank, token, map[])
  }

  lemma PayConserves(bank: map<Address, Balances>, token: Address, from: Address, to: Address, amount: int)
    requires Pay(bank, token, from, to, amount).Some?
    ensures
      var after := Pay(bank, token, from, to, amount).value;
      && (forall t :: MapSum(SupplyOf(after, t)) == MapSum(SupplyOf(bank, t)))
      && (forall t, a :: BalanceOf(SupplyOf(after, t), a) ==
                         BalanceOf(SupplyOf(bank, t), a) + if t == token then Moved(a, from, to, amount) else 0)
  {
    TransferConserves(SupplyOf(bank, token), from, to, amount);
  }

  /** What a charge of `fee` under a configured token and collector does to the `token` balance
      of `a`. */
  function Share(token: Address, a: Address, payer: Address, configured: Option<(Address, Address)>, fee: int): int {
    if configured.Some? && configured.value.0 == token && fee > 0 then Moved(a, payer, configured.value.1, fee) else 0
  }

  /** The token and the collector of each fee. */
  function DynamicRoute(l: Ledger): Option<(Address, Address)> {
    if l.schedule.config.Some? then Some((l.schedule.config.value.token, l.schedule.config.value.collector)) else None
  }

  function FlatRoute(l: Ledger): Option<(Address, Address)> {
    if l.flat.config.Some? then Some((l.flat.config.value.token, l.flat.config.value.collector)) else None
  }

  lemma DynamicPartMoves(l: Ledger, payer: Address, b: Address)
    requires CollectDynamic(l.schedule, l.bank, payer, b).Some?
    ensures
      var charged := CollectDynamic(l.schedule, l.bank, payer, b).value;
      && DynamicFees.CalculateFee(l.schedule, b) == Some(charged.fee)
      && (forall t :: MapSum(SupplyOf(charged.bank, t)) == MapSum(SupplyOf(l.bank, t)))
      && (forall t, a :: BalanceOf(SupplyOf(charged.bank, t), a) ==
            BalanceOf(SupplyOf(l.bank, t), a) + Share(t, a, payer, DynamicRoute(l), charged.fee))
  {
    var fee := DynamicFees.CalculateFee(l.schedule, b).value;
    if fee > 0 && l.schedule.config.Some? {
      PayConserves(l.bank, l.schedule.config.value.token, payer, l.schedule.config.value.collector, fee);
    }
  }

  lemma FlatPartMoves(l: Ledger, bank: map<Address, Balances>, payer: Address)
    requires CollectFlat(l.flat.config, bank, payer).Some?
    ensures
      var charged := CollectFlat(l.flat.config, bank, payer).value;
      && charged.fee == FlatFees.ChargedAmount(l.flat.config)
      && (forall t :: MapSum(SupplyOf(charged.bank, t)) == MapSum(SupplyOf(bank, t)))
      && (forall t, a :: BalanceOf(SupplyOf(charged.bank, t), a) ==
            BalanceOf(SupplyOf(bank, t), a) + Share(t, a, payer, FlatRoute(l), charged.fee))
  {
    var fee := FlatFees.ChargedAmount(l.flat.config);
    if fee > 0 {
      PayConserves(bank, l.flat.config.value.token, payer, l.flat.config.value.collector, fee);
    }
  }

  /** A charge conserves every token. The stored fee is the sum of two parts, and every account,
      payer and collectors included, moves by exactly those two parts in every token. */
  lemma StoredFeeIsPaid(l: Ledger, payer: Address, b: Address)
    requires Charge(l, payer, b).Some?
    ensures
      var charged := Charge(l, payer, b).value;
      forall t :: MapSum(SupplyOf(charged.bank, t)) == MapSum(SupplyOf(l.bank, t))
    ensures DynamicFees.CalculateFee(l.schedule, b).Some?
    ensures
      var charged := Charge(l, payer, b).value;
      var dynamic, flat := DynamicFees.CalculateFee(l.schedule, b).value, FlatFees.ChargedAmount(l.flat.config);
      && charged.fee == dynamic + flat
      && (forall t, a :: BalanceOf(SupplyOf(charged.bank, t), a) ==
            BalanceOf(SupplyOf(l.bank, t), a)
            + Share(t, a, payer, DynamicRoute(l), dynamic) + Share(t, a, payer, FlatRoute(l), flat))
  {
    DynamicPartMoves(l, payer, b);
    FlatPartMoves(l, CollectDynamic(l.schedule, l.bank, payer, b).value.bank, payer);
  }

  /** What one fee asks of the balances: the payer can spare it, and unless the payer collects it
      the collector has room. `earlier` is what an earlier fee did to a balance. */
  ghost predicate Affordable(bank: map<Address, Balances>, payer: Address, route: Option<(Address, Address)>, fee: int,
                             earlier: (Address, Address) -> int)
  {
    fee > 0 && route.Some? ==>
      var token, collector := route.value.0, route.value.1;
      && BalanceOf(SupplyOf(bank, token), payer) + earlier(token, payer) >= fee
      && (payer == collector
          || BalanceOf(SupplyOf(bank, token), collector) + earlier(token, collector) + fee <= I128_MAX)
  }

  lemma DynamicPartCommitsIff(l: Ledger, payer: Address, b: Address)
    ensures CollectDynamic(l.schedule, l.bank, payer, b).Some? <==>
              && DynamicFees.CalculateFee(l.schedule, b).Some?
              && Affordable(l.bank, payer, DynamicRoute(l), DynamicFees.CalculateFee(l.schedule, b).value, (_, _) => 0)
  {
  }

  lemma FlatPartCommitsIff(l: Ledger, bank: map<Address, Balances>, payer: Address)
    ensures CollectFlat(l.flat.config, bank, payer).Some? <==>
              Affordable(bank, payer, FlatRoute(l), FlatFees.ChargedAmount(l.flat.config), (_, _) => 0)
  {
  }

  /** Exactly when both fees can be charged: the dynamic fee can be computed and paid; the flat
      fee can be paid from what that leaves; and their sum fits. */
  lemma ChargeCommitsIff(l: Ledger, payer: Address, b: Address)
    ensures Charge(l, payer, b).Some? <==>
              && DynamicFees.CalculateFee(l.schedule, b).Some?
              && (var dynamic, flat := DynamicFees.CalculateFee(l.schedule, b).value,
                                       FlatFees.ChargedAmount(l.flat.config);
                  && Affordable(l.bank, payer, DynamicRoute(l), dynamic, (_, _) => 0)
                  && Affordable(l.bank, payer, FlatRoute(l), flat,
                                (t, a) => Share(t, a, payer, DynamicRoute(l), dynamic))
                  && FitsI128(dynamic + flat))
  {
    DynamicPartCommitsIff(l, payer, b);
    if CollectDynamic(l.schedule, l.bank, payer, b).Some? {
      DynamicPartMoves(l, payer, b);
      FlatPartCommitsIff(l, CollectDynamic(l.schedule, l.bank, payer, b).value.bank, payer);
    }
  }

  ghost predicate SameSupplies(l: Ledger, m: Ledger) {
    forall t :: MapSum(SupplyOf(m.bank, t)) == MapSum(SupplyOf(l.bank, t))
  }

  lemma SameSuppliesTwice(l: Ledger, m: Ledger, n: Ledger)
    requires SameSupplies(l, m) && SameSupplies(m, n)
    ensures SameSupplies(l, n)
  {
  }

  lemma PerformConserves(l: Ledger, env: Env, payer: Address, attestor: Option<Address>, item: Item, after: Ledger)
    requires Perform(l, env, payer, attestor, item) == Some(after)
    ensures SameSupplies(l, after)
  {
    PerformSteps(l, env, payer, attestor, item);
    StoredFeeIsPaid(l, payer, item.key.business);
  }

  lemma {:induction false} PerformsConserve(l: Ledger, env: Env, attestor: Option<Address>, items: seq<Item>)
    requires Performs(l, env, attestor, items).Some?
    ensures SameSupplies(l, Performs(l, env, attestor, items).value)
  {
    if items != [] {
      var front, last := items[..|items| - 1], items[|items| - 1];
      var before, after := Performs(l, env, attestor, front).value, Performs(l, env, attestor, items).value;
      PerformsConserve(l, env, attestor, front);
      PerformConserves(before, env, PayerOf(attestor, last), attestor, last, after);
      SameSuppliesTwice(l, before, after);
    }
  }

  lemma OthersKeepBank(l: Ledger, c: Call)
    requires !c.Submits? && !c.SubmitsBatch? && !c.IssuesRange? && !c.MovesTokens? && Attempt(l, c).Some?
    ensures Attempt(l, c).value.bank == l.bank
  {
  }

  lemma CallConserves(l: Ledger, c: Call)
    ensures SameSupplies(l, Attempt(l, c).GetOr(l))
  {
    if Attempt(l, c).Some? {
      match c
      case Submits(env, payer, attestor, item) => PerformConserves(l, env, payer, attestor, item, Attempt(l, c).value);
      case SubmitsBatch(env, attestor, items) => PerformsConserve(l, env, attestor, items);
      case IssuesRange(b, _, _, _, _) => DynamicPartMoves(l, b, b);
      case MovesTokens(token, from, to, amount) => PayConserves(l.bank, token, from, to, amount);
      case _ => OthersKeepBank(l, c);
    }
  }

  /** No run of the contract creates or destroys a unit of any token. */
  lemma {:induction false} EveryRunConserves(calls: seq<Call>, more: seq<Call>)
    ensures SameSupplies(After(calls), After(calls + more))
  {
    if more == [] {
      assert calls + more == calls;
    } else {
      var front, last := calls + more[..|more| - 1], more[|more| - 1];
      assert (calls + more)[..|calls + more| - 1] == front;
      EveryRunConserves(calls, more[..|more| - 1]);
      CallConserves(After(front), last);
      SameSuppliesTwice(After(calls), After(front), After(calls + more));
    }
  }

  /* ---------- After submission ---------- */

  /** Exactly when an attestation is revoked, and what is stored then. */
  lemma RevokeCommitsIff(l: Ledger, env: Env, caller: Address, key: Key, reason: string, authorized: bool)
    ensures Revoke(l, env, caller, key, reason, authorized).Some? <==>
              !env.paused && key in l.attestations && key !in l.revocations && authorized
    ensures Revoke(l, env, caller, key, reason, authorized).Some? ==>
              var after := Revoke(l, env, caller, key, reason, authorized).value;
              && after.revocations == l.revocations[key := Revocation(caller, env.now, reason)]
              && after.attestations == l.attestations
  {
  }

  /** Exactly when it is migrated: to a higher version, before its expiry, and unrevoked. */
  lemma MigrateCommitsIff(l: Ledger, env: Env, caller: Address, key: Key, root: Hash, version: nat)
    ensures Migrate(l, env, caller, key, root, version).Some? <==>
              && key in l.attestations && l.attestations[key].version < version
              && (l.attestations[key].expiry.None? || env.now < l.attestations[key].expiry.value)
              && key !in l.revocations
    ensures Migrate(l, env, caller, key, root, version).Some? ==>
              var after := Migrate(l, env, caller, key, root, version).value;
              && after.attestations.Keys == l.attestations.Keys
              && after.attestations[key].root == root && after.attestations[key].version == version
              && after.revocations == l.revocations
  {
  }

  /** Exactly when it is cleaned up: once expired, if neither revoked nor disputed. */
  lemma CleanUpCommitsIff(l: Ledger, env: Env, key: Key, disputed: bool)
    ensures CleanUp(l, env, key, disputed).Some? <==>
              && key in l.attestations && key !in l.revocations && !disputed
              && l.attestations[key].expiry.Some? && l.attestations[key].expiry.value <= env.now
    ensures CleanUp(l, env, key, disputed).Some? ==>
              var after := CleanUp(l, env, key, disputed).value;
              && after.attestations.Keys == l.attestations.Keys - {key}
              && after.clock.CleanupsIn(l.clock.epoch) == Min(l.clock.CleanupsIn(l.clock.epoch) + 1, U64_MAX)
              && after.clock.epoch == l.clock.epoch
  {
  }

  /** Exactly when a multi-period range is issued, and what it pays and counts. */
  lemma IssueRangeCommitsIff(l: Ledger, b: Address, start: nat, end: nat, root: Hash, free: bool)
    ensures IssueRange(l, b, start, end, root, free).Some? <==>
              free && CollectDynamic(l.schedule, l.bank, b, b).Some? && l.schedule.CountOf(b) < U64_MAX
    ensures IssueRange(l, b, start, end, root, free).Some? ==>
              var after := IssueRange(l, b, start, end, root, free).value;
              && after.bank == CollectDynamic(l.schedule, l.bank, b, b).value.bank
              && after.schedule.CountOf(b) == l.schedule.CountOf(b) + 1
              && after.events == l.events + [RangeIssued(b, start, end, root)]
              && after.attestations == l.attestations
  {
  }

  /** What a change of the fee settings stores and publishes: the configuration, when it is set
      or switched, and nothing for tiers and brackets. */
  lemma FeeChangeEffect(l: Ledger, c: DynamicFees.Call, admin: Address)
    ensures ChangeFees(l, c, admin).Some? <==> !c.Counts? && DynamicFees.Attempt(l.schedule, c).Some?
    ensures ChangeFees(l, c, admin).Some? ==>
              var after := ChangeFees(l, c, admin).value;
              && Some(after.schedule) == DynamicFees.Attempt(l.schedule, c)
              && after.events == l.events + (
                   match c
                   case Configures(config) => [FeesConfigured(config, admin)]
                   case Enables(on) =>
                     if l.schedule.config.None? then []
                     else [FeesConfigured(l.schedule.config.value.(enabled := on), admin)]
                   case _ => [])
  {
  }

  lemma FlatFeeChangeEffect(l: Ledger, c: FlatFees.Call, admin: Address)
    ensures ChangeFlatFee(l, c, admin).Some? <==> (c.Advances? ==> l.flat.epoch < U64_MAX)
    ensures ChangeFlatFee(l, c, admin).Some? ==>
              var after := ChangeFlatFee(l, c, admin).value;
              && Some(after.flat) == FlatFees.Attempt(l.flat, c)
              && after.events == l.events + if c.Configures? then [FlatFeeConfigured(c.config, admin)] else []
  {
  }

  /** From `l` to `m` nothing about `k` changes. */
  ghost predicate SameAt(l: Ledger, m: Ledger, k: Key) {
    && Lookup(m.attestations, k) == Lookup(l.attestations, k)
    && Lookup(m.revocations, k) == Lookup(l.revocations, k)
  }

  lemma PerformKeepsOthers(l: Ledger, env: Env, payer: Address, attestor: Option<Address>, item: Item, after: Ledger,
                           k: Key)
    requires Perform(l, env, payer, attestor, item) == Some(after) && k != item.key
    ensures SameAt(l, after, k)
  {
    PerformSteps(l, env, payer, attestor, item);
  }

  lemma FewerKeys(items: seq<Item>, k: Key)
    requires items != [] && k !in KeysOf(items)
    ensures k !in KeysOf(items[..|items| - 1]) && k != items[|items| - 1].key
  {
    assert items == items[..|items| - 1] + [items[|items| - 1]];
    KeysOfLast(items[..|items| - 1], items[|items| - 1]);
  }

  /** The last step of a committed batch. */
  lemma KeptLast(l: Ledger, env: Env, attestor: Option<Address>, items: seq<Item>, after: Ledger, k: Key)
    returns (before: Ledger)
    requires items != [] && Performs(l, env, attestor, items) == Some(after)
    ensures Performs(l, env, attestor, items[..|items| - 1]) == Some(before)
    ensures k != items[|items| - 1].key ==> SameAt(before, after, k)
  {
    var last := items[|items| - 1];
    before := Performs(l, env, attestor, items[..|items| - 1]).value;
    if k != last.key {
      PerformKeepsOthers(before, env, PayerOf(attestor, last), attestor, last, after, k);
    }
  }

  lemma {:induction false} PerformsKeepOthers(l: Ledger, env: Env, attestor: Option<Address>, items: seq<Item>,
                                              after: Ledger, k: Key)
    requires Performs(l, env, attestor, items) == Some(after) && k !in KeysOf(items)
    ensures SameAt(l, after, k)
  {
    if items != [] {
      var before := KeptLast(l, env, attestor, items, after, k);
      FewerKeys(items, k);
      PerformsKeepOthers(l, env, attestor, items[..|items| - 1], before, k);
    }
  }

  lemma ItemsAreNew(l: Ledger, env: Env, items: seq<Item>, k: Key)
    requires AllAcceptable(l, env, items) && k in l.attestations
    ensures k !in KeysOf(items)
  {
    forall item | item in items ensures item.key != k {
      var i :| 0 <= i < |items| && items[i] == item;
      assert Acceptable(l, env, items[i]);
    }
  }

  /** What a committed call can do to a stored attestation: a revocation marks it once, a
      migration raises its version and replaces its root, a cleanup removes it. Its timestamp,
      fee, proof hash and expiry never change while it is stored. */
  lemma CallKeepsOrigin(l: Ledger, c: Call, after: Ledger, k: Key)
    requires k in l.attestations && Attempt(l, c) == Some(after)
    ensures !(c.CleansUp? && c.key == k) ==>
              && k in after.attestations
              && after.attestations[k] == l.attestations[k].(
                   root := after.attestations[k].root, version := after.attestations[k].version)
              && (after.attestations[k] == l.attestations[k]
                  || after.attestations[k].version > l.attestations[k].version)
    ensures k in l.revocations ==> SameAt(l, after, k)
  {
    match c
    case Submits(env, payer, attestor, item) => PerformKeepsOthers(l, env, payer, attestor, item, after, k);
    case SubmitsBatch(env, attestor, items) =>
      ItemsAreNew(l, env, items, k);
      PerformsKeepOthers(l, env, attestor, items, after, k);
    case _ => OthersKeepOrigin(l, c, after, k);
  }

  lemma OthersKeepOrigin(l: Ledger, c: Call, after: Ledger, k: Key)
    requires k in l.attestations && Attempt(l, c) == Some(after) && !c.Submits? && !c.SubmitsBatch?
    ensures !(c.CleansUp? && c.key == k) ==>
              && k in after.attestations
              && after.attestations[k] == l.attestations[k].(
                   root := after.attestations[k].root, version := after.attestations[k].version)
              && (after.attestations[k] == l.attestations[k]
                  || after.attestations[k].version > l.attestations[k].version)
    ensures k in l.revocations ==> SameAt(l, after, k)
  {
  }

  /** A revocation is final: whatever is called later, a revoked attestation stays stored exactly
      as it was, with the same revoker, time and reason. */
  lemma {:induction false} RevokedForGood(calls: seq<Call>, more: seq<Call>, k: Key)
    requires k in After(calls).attestations && k in After(calls).revocations
    ensures SameAt(After(calls), After(calls + more), k)
  {
    if more == [] {
      assert calls + more == calls;
    } else {
      var front, last := calls + more[..|more| - 1], more[|more| - 1];
      assert (calls + more)[..|calls + more| - 1] == front;
      RevokedForGood(calls, more[..|more| - 1], k);
      var l := After(front);
      assert Lookup(l.attestations, k).Some? && Lookup(l.revocations, k).Some?;
      if Attempt(l, last).Some? {
        CallKeepsOrigin(l, last, Attempt(l, last).value, k);
      }
    }
  }

  /* ---------- The accumulators are a function of the events ---------- */

  /** What an indexer computes from the stream alone. */
  datatype Tally = Tally(counts: map<Address, nat>, subs: map<Period, nat>, fees: map<Period, int>, total: nat)

  function TallyOf(events: seq<Event>): Tally {
    if events == [] then Tally(map[], map[], map[], 0)
    else
      var t, last := TallyOf(events[..|events| - 1]), events[|events| - 1];
      if last.RangeIssued? then t.(counts := t.counts[last.business := Get(t.counts, last.business, 0) + 1])
      else if !last.Submitted? then t
      else
        var b, p := last.key.business, last.key.period;
        Tally(t.counts[b := Get(t.counts, b, 0) + 1],
              t.subs[p := SatAdd(Get(t.subs, p, 0), 1, U64_MAX)],
              t.fees[p := SatAddI128(Get(t.fees, p, 0), last.data.fee)],
              SatAdd(t.total, 1, U64_MAX))
  }

  function NotesOf(events: seq<Event>): seq<Epochs.Note> {
    if events == [] then []
    else
      var last := events[|events| - 1];
      NotesOf(events[..|events| - 1]) + if last.Boundary? then [last.note] else []
  }

  function Backfills(events: seq<Event>): nat {
    if events == [] then 0
    else Backfills(events[..|events| - 1]) + if events[|events| - 1].BackfillCheckpoint? then 1 else 0
  }

  /** The storage agrees with the stream. */
  ghost predicate Accounted(l: Ledger) {
    && TallyOf(l.events) == Tally(l.schedule.counts, l.epochSubs, l.epochFees, l.backfill)
    && NotesOf(l.events) == l.clock.log
  }

  /** An epoch checkpoint repeats what its period's events up to that point add up to, right
      after the submission that caused it. */
  ghost predicate CheckpointOk(events: seq<Event>, i: nat)
    requires i < |events|
  {
    events[i].EpochCheckpoint? ==>
      && i >= 1 && events[i - 1].Submitted?
      && events[i - 1].key.period == events[i].period && events[i - 1].data.root == events[i].root
      && events[i].submissions == Get(TallyOf(events[..i]).subs, events[i].period, 0)
      && events[i].fees == Get(TallyOf(events[..i]).fees, events[i].period, 0)
  }

  ghost predicate BackfillOk(events: seq<Event>, i: nat)
    requires i < |events|
  {
    events[i].BackfillCheckpoint? ==>
      && events[i].count == TallyOf(events[..i]).total
      && events[i].count % BACKFILL_CHECKPOINT_INTERVAL == 0
  }

  ghost predicate Journal(events: seq<Event>) {
    && (forall i: nat :: i < |events| ==> CheckpointOk(events, i) && BackfillOk(events, i))
    && Backfills(events) == TallyOf(events).total / BACKFILL_CHECKPOINT_INTERVAL
  }

  /** Appending one event, seen by every fold. */
  lemma AppendOne(events: seq<Event>, e: Event)
    ensures (events + [e])[..|events|] == events
    ensures !e.Submitted? && !e.RangeIssued? ==> TallyOf(events + [e]) == TallyOf(events)
    ensures NotesOf(events + [e]) == NotesOf(events) + if e.Boundary? then [e.note] else []
    ensures Backfills(events + [e]) == Backfills(events) + if e.BackfillCheckpoint? then 1 else 0
  {
    assert (events + [e])[..|events|] == events;
  }

  lemma EarlierChecksHold(events: seq<Event>, e: Event, i: nat)
    requires i < |events| && CheckpointOk(events, i) && BackfillOk(events, i)
    ensures CheckpointOk(events + [e], i) && BackfillOk(events + [e], i)
  {
    assert (events + [e])[..i] == events[..i];
    assert (events + [e])[i] == events[i];
    if i >= 1 {
      assert (events + [e])[i - 1] == events[i - 1];
    }
  }

  lemma JournalGrows(events: seq<Event>, e: Event)
    requires Journal(events)
    requires CheckpointOk(events + [e], |events|) && BackfillOk(events + [e], |events|)
    requires Backfills(events + [e]) == TallyOf(events + [e]).total / BACKFILL_CHECKPOINT_INTERVAL
    ensures Journal(events + [e])
  {
    forall i: nat | i < |events + [e]| ensures CheckpointOk(events + [e], i) && BackfillOk(events + [e], i) {
      if i < |events| {
        EarlierChecksHold(events, e, i);
      }
    }
  }

  predicate Plain(e: Event) {
    !e.Submitted? && !e.EpochCheckpoint? && !e.BackfillCheckpoint?
  }

  lemma JournalGrowsPlainly(events: seq<Event>, e: Event)
    requires Journal(events) && Plain(e)
    ensures Journal(events + [e])
  {
    AppendOne(events, e);
    assert TallyOf(events + [e]).total == TallyOf(events).total;
    JournalGrows(events, e);
  }

  lemma {:induction false} BoundariesArePlain(events: seq<Event>, notes: seq<Epochs.Note>)
    requires Journal(events)
    ensures Journal(events + Boundaries(notes))
    ensures TallyOf(events + Boundaries(notes)) == TallyOf(events)
    ensures NotesOf(events + Boundaries(notes)) == NotesOf(events) + notes
  {
    if notes == [] {
      assert events + Boundaries(notes) == events;
    } else {
      var front, last := notes[..|notes| - 1], notes[|notes| - 1];
      BoundariesArePlain(events, front);
      assert events + Boundaries(notes) == events + Boundaries(front) + [Boundary(last)];
      AppendOne(events + Boundaries(front), Boundary(last));
      JournalGrowsPlainly(events + Boundaries(front), Boundary(last));
      assert notes == front + [last];
    }
  }

  lemma RollKeepsAccounts(l: Ledger, now: nat)
    requires Accounted(l) && Journal(l.events)
    ensures Accounted(RollEpoch(l, now)) && Journal(RollEpoch(l, now).events)
  {
    var windows := if l.clock.bucket == None then 1 else SatSub(Epochs.BucketOf(now), l.clock.bucket.value);
    Epochs.AdvanceByEffect(l.clock, now, windows);
    var clock := Epochs.RollOver(l.clock, now);
    assert l.clock.log <= clock.log;
    BoundariesArePlain(l.events, clock.log[|l.clock.log|..]);
    assert l.clock.log + clock.log[|l.clock.log|..] == clock.log;
  }

  lemma {:induction false} TotalIsBounded(events: seq<Event>)
    ensures TallyOf(events).total <= U64_MAX
  {
    if events != [] {
      TotalIsBounded(events[..|events| - 1]);
    }
  }

  lemma NextHundred(n: nat)
    requires n <= U64_MAX
    ensures
      var next := SatAdd(n, 1, U64_MAX);
      next / BACKFILL_CHECKPOINT_INTERVAL ==
        n / BACKFILL_CHECKPOINT_INTERVAL + if next % BACKFILL_CHECKPOINT_INTERVAL == 0 then 1 else 0
  {
  }

  /** One submission's events, in order: the submission, its checkpoint, and a backfill
      checkpoint at every hundredth submission. */
  lemma SubmissionKeepsJournal(events: seq<Event>, key: Key, data: AttestationData, checkpoint: Event)
    requires Journal(events)
    requires
      var t := TallyOf(events + [Submitted(key, data)]);
      && checkpoint.EpochCheckpoint? && checkpoint.period == key.period && checkpoint.root == data.root
      && checkpoint.submissions == Get(t.subs, key.period, 0) && checkpoint.fees == Get(t.fees, key.period, 0)
    ensures
      var written := events + [Submitted(key, data)] + [checkpoint];
      var count := TallyOf(written).total;
      && count == SatAdd(TallyOf(events).total, 1, U64_MAX)
      && Journal(if count % BACKFILL_CHECKPOINT_INTERVAL == 0
                 then written + [BackfillCheckpoint(count, data.root)] else written)
  {
    var one := events + [Submitted(key, data)];
    AppendOne(events, Submitted(key, data));
    var written := one + [checkpoint];
    AppendOne(one, checkpoint);
    CheckpointsHold(events, key, data, checkpoint);
    var count := TallyOf(written).total;
    TotalIsBounded(events);
    NextHundred(TallyOf(events).total);
    if count % BACKFILL_CHECKPOINT_INTERVAL == 0 {
      var backfill := BackfillCheckpoint(count, data.root);
      AppendOne(written, backfill);
      forall i: nat | i < |written + [backfill]|
        ensures CheckpointOk(written + [backfill], i) && BackfillOk(written + [backfill], i)
      {
        if i < |written| {
          EarlierChecksHold(written, backfill, i);
        }
      }
    }
  }

  lemma CheckpointsHold(events: seq<Event>, key: Key, data: AttestationData, checkpoint: Event)
    requires Journal(events)
    requires
      var t := TallyOf(events + [Submitted(key, data)]);
      && checkpoint.EpochCheckpoint? && checkpoint.period == key.period && checkpoint.root == data.root
      && checkpoint.submissions == Get(t.subs, key.period, 0) && checkpoint.fees == Get(t.fees, key.period, 0)
    ensures
      var written := events + [Submitted(key, data)] + [checkpoint];
      forall i: nat :: i < |written| ==> CheckpointOk(written, i) && BackfillOk(written, i)
  {
    var one := events + [Submitted(key, data)];
    var written := one + [checkpoint];
    AppendOne(one, checkpoint);
    forall i: nat | i < |written| ensures CheckpointOk(written, i) && BackfillOk(written, i) {
      if i < |events| {
        EarlierChecksHold(events, Submitted(key, data), i);
        EarlierChecksHold(one, checkpoint, i);
      } else if i == |events| {
        assert written[i] == Submitted(key, data);
      }
    }
  }

  lemma SubmissionIsTallied(l: Ledger, env: Env, attestor: Option<Address>, item: Item, c: Charged, after: Ledger)
    requires Accounted(l) && Store(l, env, attestor, item, c) == Some(after)
    ensures TallyOf(l.events + [Submitted(item.key, DataOf(item, c.fee))]) ==
              Tally(after.schedule.counts, after.epochSubs, after.epochFees, after.backfill)
  {
    AppendOne(l.events, Submitted(item.key, DataOf(item, c.fee)));
  }

  lemma StoreKeepsAccounts(l: Ledger, env: Env, attestor: Option<Address>, item: Item, c: Charged, after: Ledger)
    requires Accounted(l) && Journal(l.events) && Store(l, env, attestor, item, c) == Some(after)
    ensures Accounted(after) && Journal(after.events)
  {
    var data, period := DataOf(item, c.fee), item.key.period;
    var submitted := Submitted(item.key, data);
    var checkpoint := EpochCheckpoint(period, item.root, after.epochSubs[period], after.epochFees[period], env.now);
    var one := l.events + [submitted];
    var written := one + [checkpoint];
    AppendOne(l.events, submitted);
    AppendOne(one, checkpoint);
    SubmissionIsTallied(l, env, attestor, item, c, after);
    SubmissionKeepsJournal(l.events, item.key, data, checkpoint);
    var backfill := BackfillCheckpoint(after.backfill, item.root);
    AppendOne(written, backfill);
    if after.backfill % BACKFILL_CHECKPOINT_INTERVAL == 0 {
      assert after.events == written + [backfill];
    } else {
      assert after.events == written;
    }
  }

  lemma PerformKeepsAccounts(l: Ledger, env: Env, payer: Address, attestor: Option<Address>, item: Item)
    requires Accounted(l) && Journal(l.events) && Perform(l, env, payer, attestor, item).Some?
    ensures Accounted(Perform(l, env, payer, attestor, item).value)
    ensures Journal(Perform(l, env, payer, attestor, item).value.events)
  {
    var checked := l.(limiter := RateLimit.Check(l.limiter, item.key.business, env.now).value);
    RollKeepsAccounts(checked, env.now);
    var rolled := RollEpoch(checked, env.now);
    var charged := Charge(rolled, payer, item.key.business).value;
    StoreKeepsAccounts(rolled, env, attestor, item, charged, Store(rolled, env, attestor, item, charged).value);
  }

  lemma {:induction false} PerformsKeepAccounts(l: Ledger, env: Env, attestor: Option<Address>, items: seq<Item>)
    requires Accounted(l) && Journal(l.events) && Performs(l, env, attestor, items).Some?
    ensures Accounted(Performs(l, env, attestor, items).value)
    ensures Journal(Performs(l, env, attestor, items).value.events)
  {
    if items != [] {
      var last := items[|items| - 1];
      PerformsKeepAccounts(l, env, attestor, items[..|items| - 1]);
      var before := Performs(l, env, attestor, items[..|items| - 1]).value;
      PerformKeepsAccounts(before, env, PayerOf(attestor, last), attestor, last);
    }
  }

  lemma PlainEventKeepsAccounts(l: Ledger, e: Event, after: Ledger)
    requires Accounted(l) && Journal(l.events) && Plain(e) && !e.Boundary? && !e.RangeIssued?
    requires after.events == l.events + [e]
    requires after.schedule.counts == l.schedule.counts && after.clock.log == l.clock.log
    requires after.epochSubs == l.epochSubs && after.epochFees == l.epochFees && after.backfill == l.backfill
    ensures Accounted(after) && Journal(after.events)
  {
    AppendOne(l.events, e);
    JournalGrowsPlainly(l.events, e);
  }

  lemma RangeIsTallied(events: seq<Event>, b: Address, start: nat, end: nat, root: Hash)
    ensures
      var t := TallyOf(events);
      TallyOf(events + [RangeIssued(b, start, end, root)]) == t.(counts := t.counts[b := Get(t.counts, b, 0) + 1])
  {
    assert (events + [RangeIssued(b, start, end, root)])[..|events|] == events;
  }

  lemma RangeKeepsAccounts(l: Ledger, b: Address, start: nat, end: nat, root: Hash, free: bool, after: Ledger)
    requires Accounted(l) && Journal(l.events) && IssueRange(l, b, start, end, root, free) == Some(after)
    ensures Accounted(after) && Journal(after.events)
  {
    AppendOne(l.events, RangeIssued(b, start, end, root));
    RangeIsTallied(l.events, b, start, end, root);
    JournalGrowsPlainly(l.events, RangeIssued(b, start, end, root));
  }

  /** The announcement of a setting that changed. */
  function NoticeOf(c: Call, after: Ledger): seq<Event> {
    if c.SetsFees? then FeeNotice(c.fees, after.schedule, c.admin)
    else if c.SetsFlatFee? then FlatFeeNotice(c.flat, c.admin)
    else []
  }

  /** Changing a setting or moving tokens publishes at most its notice and touches no total. */
  lemma SettingsKeepTotals(l: Ledger, c: Call, after: Ledger)
    requires c.SetsLimits? || c.SetsFees? || c.SetsFlatFee? || c.MovesTokens?
    requires Attempt(l, c) == Some(after)
    ensures after.events == l.events + NoticeOf(c, after)
    ensures after.clock == l.clock && after.schedule.counts == l.schedule.counts
    ensures after.epochSubs == l.epochSubs && after.epochFees == l.epochFees && after.backfill == l.backfill
  {
    if c.SetsFees? {
      DynamicFees.SettersKeepCounts(l.schedule, c.fees);
    } else if c.MovesTokens? {
      assert after == l.(bank := after.bank);
    }
    assert l.events + [] == l.events;
  }

  lemma SettingsKeepAccounts(l: Ledger, c: Call, after: Ledger)
    requires Accounted(l) && Journal(l.events)
    requires c.SetsLimits? || c.SetsFees? || c.SetsFlatFee? || c.MovesTokens?
    requires Attempt(l, c) == Some(after)
    ensures Accounted(after) && Journal(after.events)
  {
    SettingsKeepTotals(l, c, after);
    var notice := NoticeOf(c, after);
    if notice == [] {
      assert after.events == l.events;
    } else {
      assert notice == [notice[0]];
      PlainEventKeepsAccounts(l, notice[0], after);
    }
  }

  lemma CallKeepsAccounts(l: Ledger, c: Call)
    requires Accounted(l) && Journal(l.events) && Attempt(l, c).Some?
    ensures Accounted(Attempt(l, c).value) && Journal(Attempt(l, c).value.events)
  {
    match c
    case Submits(env, payer, attestor, item) => PerformKeepsAccounts(l, env, payer, attestor, item);
    case SubmitsBatch(env, attestor, items) => PerformsKeepAccounts(l, env, attestor, items);
    case Revokes(env, caller, key, reason, _) =>
      PlainEventKeepsAccounts(l, Revoked(key, caller, reason), Attempt(l, c).value);
    case Migrates(env, caller, key, root, version) =>
      var data := l.attestations[key];
      PlainEventKeepsAccounts(l, Migrated(key, data.root, root, data.version, version, caller), Attempt(l, c).value);
    case CleansUp(env, key, _) =>
      PlainEventKeepsAccounts(l, CleanedUp(key, env.now), Attempt(l, c).value);
    case IssuesRange(b, start, end, root, free) =>
      RangeKeepsAccounts(l, b, start, end, root, free, Attempt(l, c).value);
    case _ => SettingsKeepAccounts(l, c, Attempt(l, c).value);
  }

  /** In every run of submissions, batches, multi-period ranges, revocations, migrations,
      cleanups and setting changes, the counters and fee totals in storage are exactly what the event stream adds
      up to; every checkpoint can be recomputed from the events before it; there is one
      backfill checkpoint per hundred submissions; and the boundary events are the epoch log. */
  lemma {:induction false} EveryLedgerIsAccounted(calls: seq<Call>)
    ensures Accounted(After(calls)) && Journal(After(calls).events)
  {
    if calls != [] {
      var before, c := After(calls[..|calls| - 1]), calls[|calls| - 1];
      EveryLedgerIsAccounted(calls[..|calls| - 1]);
      if Attempt(before, c).Some? {
        CallKeepsAccounts(before, c);
      }
    }
  }

  /* ---------- Epoch boundaries in the published stream ---------- */

  lemma {:induction false} PerformsKeepReported(l: Ledger, env: Env, attestor: Option<Address>, items: seq<Item>)
    requires Epochs.Reported(l.clock) && Performs(l, env, attestor, items).Some?
    ensures Epochs.Reported(Performs(l, env, attestor, items).value.clock)
  {
    if items != [] {
      var front, last := items[..|items| - 1], items[|items| - 1];
      PerformsKeepReported(l, env, attestor, front);
      var before := Performs(l, env, attestor, front).value;
      PerformSteps(before, env, PayerOf(attestor, last), attestor, last);
      Epochs.ApplyKeepsReported(before.clock, Epochs.Submits(env.now));
    }
  }

  lemma CallKeepsReported(l: Ledger, c: Call)
    requires Epochs.Reported(l.clock) && Attempt(l, c).Some?
    ensures Epochs.Reported(Attempt(l, c).value.clock)
  {
    match c
    case Submits(env, payer, attestor, item) =>
      PerformSteps(l, env, payer, attestor, item);
      Epochs.ApplyKeepsReported(l.clock, Epochs.Submits(env.now));
    case SubmitsBatch(env, attestor, items) => PerformsKeepReported(l, env, attestor, items);
    case CleansUp(_, _, _) => Epochs.ApplyKeepsReported(l.clock, Epochs.Cleans);
    case _ =>
  }

  /** In every run the boundary events of the published stream are exactly one summary and
      one advance per ended epoch, in order, and each summary still is that epoch's count. */
  lemma {:induction false} EveryBoundaryIsPublished(calls: seq<Call>)
    ensures Epochs.Reported(After(calls).clock) && NotesOf(After(calls).events) == After(calls).clock.log
  {
    EveryLedgerIsAccounted(calls);
    if calls != [] {
      var front, last := calls[..|calls| - 1], calls[|calls| - 1];
      EveryBoundaryIsPublished(front);
      if Attempt(After(front), last).Some? {
        CallKeepsReported(After(front), last);
      }
    }
  }
}
