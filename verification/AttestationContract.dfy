/** The attestation contract as its entry points run it: storage spread over the limiter, the
    fee schedules, the epoch counter and the contract's own maps, changed step by step and
    rolled back when a step aborts.
 */
module AttestationEntry {
  import opened Base
  import opened Attestations
  import RateLimit
  import DynamicFees
  import Epochs
  import FlatFees

  lemma {:induction false} PerformsStop(l: Ledger, env: Env, attestor: Option<Address>, items: seq<Item>, n: nat)
    requires n <= |items| && Performs(l, env, attestor, items[..n]).None?
    ensures Performs(l, env, attestor, items).None?
  {
    if n == |items| {
      assert items[..n] == items;
    } else {
      assert items[..|items| - 1][..n] == items[..n];
      PerformsStop(l, env, attestor, items[..|items| - 1], n);
    }
  }

  /** It makes no difference whether the payment and the attestor's key are already in the
      ledger when the rest of a submission is stored. */
  lemma StoredEarlier(l: Ledger, env: Env, attestor: Option<Address>, item: Item, c: Charged)
    ensures Store(l.(bank := c.bank), env, attestor, item, c) == Store(l, env, attestor, item, c)
    ensures attestor.Some? ==>
              Store(l.(bank := c.bank, attestors := l.attestors[item.key := attestor.value]), env, None, item, c)
              == Store(l, env, attestor, item, c)
  {
  }

  class AttestationContract {
    const limiter: RateLimit.RateLimiter
    const fees: DynamicFees.FeeSchedule
    const clock: Epochs.EpochCounter
    const flat: FlatFees.FlatFeeBook
    var bank: map<Address, Balances>
    var attestations: map<Key, AttestationData>
    var attestors: map<Key, Address>
    var revocations: map<Key, Revocation>
    var epochSubs: map<Period, nat>
    var epochFees: map<Period, int>
    var backfill: nat
    var events: seq<Event>

    predicate Valid()
      reads this, limiter, fees
    {
      limiter.Model().Valid() && fees.Model().Paired()
    }

    function Model(): Ledger
      reads this, limiter, fees, clock, flat
      requires Valid()
    {
      Ledger(limiter.Model(), fees.Model(), clock.Model(), flat.Model(), bank, attestations, attestors,
             revocations, epochSubs, epochFees, backfill, events)
    }

    constructor ()
      ensures Valid() && Model() == Genesis
      ensures fresh(limiter) && fresh(fees) && fresh(clock) && fresh(flat)
    {
      limiter := new RateLimit.RateLimiter();
      fees := new DynamicFees.FeeSchedule();
      clock := new Epochs.EpochCounter();
      flat := new FlatFees.FlatFeeBook();
      bank, attestations, attestors, revocations := map[], map[], map[], map[];
      epochSubs, epochFees, backfill, events := map[], map[], 0, [];
    }

    /** Undoes an aborted transaction. */
    method RollBackTo(l: Ledger)
      requires Valid() && flat.Model() == l.flat
      modifies this, limiter, fees, clock
      ensures Valid() && Model() == l
    {
      limiter.Restore(l.limiter);
      fees.Restore(l.schedule);
      clock.Restore(l.clock);
      bank, attestations, attestors, revocations := l.bank, l.attestations, l.attestors, l.revocations;
      epochSubs, epochFees, backfill, events := l.epochSubs, l.epochFees, l.backfill, l.events;
    }

    method CollectFeeFrom(payer: Address, business: Address) returns (ok: bool, fee: int)
      requires Valid()
      modifies this`bank
      ensures
        var charged := CollectDynamic(fees.Model(), old(bank), payer, business);
        ok == charged.Some? && (ok ==> charged == Some(Charged(bank, fee)))
    {
      var quoted := fees.CalculateFeeFor(business);
      if quoted.None? {
        return false, 0;
      }
      fee := quoted.value;
      if fee > 0 && fees.config.Some? {
        var moved := Pay(bank, fees.config.value.token, payer, fees.config.value.collector, fee);
        if moved.None? {
          return false, 0;
        }
        bank := moved.value;
      }
      ok := true;
    }

    method CollectFlatFee(payer: Address) returns (ok: bool, fee: int)
      modifies this`bank
      ensures
        var charged := CollectFlat(flat.config, old(bank), payer);
        ok == charged.Some? && (ok ==> charged == Some(Charged(bank, fee)))
    {
      if flat.config.None? || !flat.config.value.enabled || flat.config.value.amount <= 0 {
        return true, 0;
      }
      var moved := Pay(bank, flat.config.value.token, payer, flat.config.value.collector, flat.config.value.amount);
      if moved.None? {
        return false, 0;
      }
      bank := moved.value;
      return true, flat.config.value.amount;
    }

    /** The rollover, with its boundary events published in the contract's stream. */
    method RollEpochOver(now: nat)
      requires Valid()
      modifies this`events, clock
      ensures Valid() && Model() == RollEpoch(old(Model()), now)
    {
      var published := |clock.log|;
      ghost var windows := if clock.bucket == None then 1 else SatSub(Epochs.BucketOf(now), clock.bucket.value);
      Epochs.AdvanceByEffect(clock.Model(), now, windows);
      clock.HandleEpochRollover(now);
      events := events + Boundaries(clock.log[published..]);
    }

    method PublishEpochCheckpoint(env: Env, item: Item, fee: int)
      modifies this`epochSubs, this`epochFees, this`events
      ensures epochSubs ==
                old(epochSubs)[item.key.period := SatAdd(Get(old(epochSubs), item.key.period, 0), 1, U64_MAX)]
      ensures epochFees == old(epochFees)[item.key.period := SatAddI128(Get(old(epochFees), item.key.period, 0), fee)]
      ensures events == old(events) + [EpochCheckpoint(item.key.period, item.root, epochSubs[item.key.period],
                                                       epochFees[item.key.period], env.now)]
    {
      var period := item.key.period;
      epochSubs := epochSubs[period := SatAdd(Get(epochSubs, period, 0), 1, U64_MAX)];
      epochFees := epochFees[period := SatAddI128(Get(epochFees, period, 0), fee)];
      events := events + [EpochCheckpoint(period, item.root, epochSubs[period], epochFees[period], env.now)];
    }

    method PublishBackfillCheckpoint(root: Hash)
      modifies this`backfill, this`events
      ensures backfill == SatAdd(old(backfill), 1, U64_MAX)
      ensures events == old(events) + if backfill % BACKFILL_CHECKPOINT_INTERVAL == 0
                                      then [BackfillCheckpoint(backfill, root)] else []
    {
      backfill := SatAdd(backfill, 1, U64_MAX);
      if backfill % BACKFILL_CHECKPOINT_INTERVAL == 0 {
        events := events + [BackfillCheckpoint(backfill, root)];
      } else {
        assert events + [] == events;
      }
    }

    /** Stores the attestation, publishes its events, and records it with the limiter. */
    method WriteSubmission(env: Env, item: Item, fee: int)
      requires Valid()
      modifies this`attestations, this`epochSubs, this`epochFees, this`backfill, this`events, limiter
      ensures Valid() && Model() == Write(old(Model()), env, item, fee)
      ensures attestations == old(attestations)[item.key := AttestationData(
                item.root, item.timestamp, item.version, fee, item.proofHash, item.expiry)]
    {
      attestations := attestations[item.key := DataOf(item, fee)];
      events := events + [Submitted(item.key, DataOf(item, fee))];
      PublishEpochCheckpoint(env, item, fee);
      PublishBackfillCheckpoint(item.root);
      limiter.RecordSubmission(item.key.business, env.now);
    }

    /** Admission by the limiter, and the epoch rollover that follows it. */
    method AdmitAndRoll(now: nat, business: Address) returns (ok: bool)
      requires Valid()
      modifies this`events, limiter, clock
      ensures Valid()
      ensures
        var checked := RateLimit.Check(old(limiter.Model()), business, now);
        && ok == checked.Some?
        && Model() == if ok then RollEpoch(old(Model()).(limiter := checked.value), now) else old(Model())
    {
      ok := limiter.CheckRateLimit(business, now);
      if ok {
        RollEpochOver(now);
      }
    }

    /** Both fees, from the payer to their collectors. */
    method ChargeFees(payer: Address, business: Address) returns (ok: bool, fee: int)
      requires Valid()
      modifies this`bank
      ensures
        var charged := Charge(old(Model()), payer, business);
        ok == charged.Some? && (ok ==> charged == Some(Charged(bank, fee)))
    {
      var paid, dynamicFee := CollectFeeFrom(payer, business);
      if !paid {
        return false, 0;
      }
      var flatPaid, flatFee := CollectFlatFee(payer);
      return flatPaid && FitsI128(dynamicFee + flatFee), dynamicFee + flatFee;
    }

    /** Counts the attestation and stores it; the batch path stores the attestor in between. */
    method CountAndWrite(env: Env, attestor: Option<Address>, item: Item, fee: int) returns (ok: bool)
      requires Valid()
      modifies this, limiter, fees
      ensures Valid()
      ensures Tx(ok, Store(old(Model()), env, attestor, item, Charged(old(bank), fee)), old(Model()), Model())
    {
      ok := fees.IncrementBusinessCount(item.key.business);
      if ok {
        if attestor.Some? {
          attestors := attestors[item.key := attestor.value];
        }
        WriteSubmission(env, item, fee);
      }
    }

    /** One submission; its checks and its effects alternate. */
    method Submit(env: Env, payer: Address, attestor: Option<Address>, item: Item) returns (ok: bool)
      requires Valid()
      modifies this, limiter, fees, clock
      ensures Valid() && Tx(ok, Execute(old(Model()), env, payer, attestor, item), old(Model()), Model())
    {
      var saved := Model();
      if env.paused || item.key.business !in env.active {
        return false;
      }
      ok := AdmitAndRoll(env.now, item.key.business);
      if ok {
        ok := item.key !in attestations && ValidExpiry(item, env.now) && ValidProof(item);
        if ok {
          ok := SubmitAdmitted(env, payer, attestor, item);
        }
        if !ok {
          RollBackTo(saved);
        }
      }
    }

    /** The rest of a single submission, after every check. */
    method SubmitAdmitted(env: Env, payer: Address, attestor: Option<Address>, item: Item) returns (ok: bool)
      requires Valid()
      modifies this, limiter, fees
      ensures Valid() && flat.Model() == old(flat.Model())
      ensures
        var charged := Charge(old(Model()), payer, item.key.business);
        var next := if charged.Some? then Store(old(Model()), env, attestor, item, charged.value) else None;
        ok == next.Some? && (ok ==> next == Some(Model()))
    {
      ghost var before := Model();
      if attestor.Some? {
        attestors := attestors[item.key := attestor.value];
      }
      assert Charge(Model(), payer, item.key.business) == Charge(before, payer, item.key.business);
      var fee;
      ok, fee := ChargeFees(payer, item.key.business);
      if ok {
        StoredEarlier(before, env, attestor, item, Charged(bank, fee));
        ok := CountAndWrite(env, None, item, fee);
      }
    }

    /** What the batch does for one item after the whole batch was validated. On an abort the
        caller rolls the batch back. */
    method SubmitValidated(env: Env, attestor: Option<Address>, item: Item) returns (ok: bool)
      requires Valid()
      modifies this, limiter, fees, clock
      ensures Valid() && flat.Model() == old(flat.Model())
      ensures
        var next := Perform(old(Model()), env, PayerOf(attestor, item), attestor, item);
        ok == next.Some? && (ok ==> next == Some(Model()))
    {
      ok := AdmitAndRoll(env.now, item.key.business);
      if ok {
        ghost var rolled := Model();
        var fee;
        ok, fee := ChargeFees(PayerOf(attestor, item), item.key.business);
        if ok {
          StoredEarlier(rolled, env, attestor, item, Charged(bank, fee));
          ok := CountAndWrite(env, attestor, item, fee);
        }
      }
    }

    /** The first phase of a batch: looks only at the ledger as it is before the batch. */
    method ValidateBatch(env: Env, items: seq<Item>) returns (ok: bool)
      requires Valid() && !env.paused
      ensures ok == (AllAcceptable(Model(), env, items) && DistinctKeys(items))
    {
      var seen: seq<Key> := [];
      for i := 0 to |items|
        invariant |seen| == i && forall k :: 0 <= k < i ==> seen[k] == items[k].key
        invariant forall k :: 0 <= k < i ==> Acceptable(Model(), env, items[k])
        invariant forall x, y :: 0 <= x < y < i ==> items[x].key != items[y].key
      {
        var item := items[i];
        if item.key.business !in env.active {
          assert !Acceptable(Model(), env, items[i]);
          return false;
        }
        for k := 0 to i
          invariant forall x :: 0 <= x < k ==> items[x].key != item.key
        {
          if seen[k] == item.key {
            assert items[k].key == items[i].key;
            return false;
          }
        }
        seen := seen + [item.key];
        if item.key in attestations || !ValidExpiry(item, env.now) || !ValidProof(item) {
          assert !Acceptable(Model(), env, items[i]);
          return false;
        }
      }
      return true;
    }

    /** The second phase of a batch. On an abort the caller rolls the batch back. */
    method PerformAll(env: Env, attestor: Option<Address>, items: seq<Item>) returns (ok: bool)
      requires Valid()
      modifies this, limiter, fees, clock
      ensures Valid() && flat.Model() == old(flat.Model())
      ensures
        var next := Performs(old(Model()), env, attestor, items);
        ok == next.Some? && (ok ==> next == Some(Model()))
    {
      ghost var before := Model();
      for i := 0 to |items|
        invariant Valid() && flat.Model() == before.flat
        invariant Performs(before, env, attestor, items[..i]) == Some(Model())
      {
        assert items[..i + 1][..i] == items[..i];
        ok := SubmitValidated(env, attestor, items[i]);
        if !ok {
          PerformsStop(before, env, attestor, items, i + 1);
          return;
        }
      }
      assert items[..|items|] == items;
      ok := true;
    }

    /** A batch: validation first, then one stateful pass. */
    method SubmitBatch(env: Env, attestor: Option<Address>, items: seq<Item>) returns (ok: bool)
      requires Valid()
      modifies this, limiter, fees, clock
      ensures Valid() && Tx(ok, ExecuteBatch(old(Model()), env, attestor, items), old(Model()), Model())
    {
      var saved := Model();
      if env.paused {
        assert items != [] ==> !Acceptable(saved, env, items[0]);
        return false;
      }
      if |items| == 0 || |items| > MAX_BATCH_SIZE {
        return false;
      }
      ok := ValidateBatch(env, items);
      if ok {
        ok := PerformAll(env, attestor, items);
        if !ok {
          RollBackTo(saved);
        }
      }
    }

    method RevokeAttestation(env: Env, caller: Address, key: Key, reason: string, authorized: bool) returns (ok: bool)
      requires Valid()
      modifies this`revocations, this`events
      ensures Valid() && Tx(ok, Revoke(old(Model()), env, caller, key, reason, authorized), old(Model()), Model())
    {
      if env.paused || key !in attestations || key in revocations || !authorized {
        return false;
      }
      revocations := revocations[key := Revocation(caller, env.now, reason)];
      events := events + [Revoked(key, caller, reason)];
      return true;
    }

    method MigrateAttestation(env: Env, caller: Address, key: Key, root: Hash, version: nat) returns (ok: bool)
      requires Valid()
      modifies this`attestations, this`events
      ensures Valid() && Tx(ok, Migrate(old(Model()), env, caller, key, root, version), old(Model()), Model())
    {
      if key !in attestations {
        return false;
      }
      var data := attestations[key];
      if version <= data.version || Expired(data, env.now) || key in revocations {
        return false;
      }
      attestations := attestations[key := data.(root := root, version := version)];
      events := events + [Migrated(key, data.root, root, data.version, version, caller)];
      return true;
    }

    method CleanUpExpiredAttestation(env: Env, key: Key, disputed: bool) returns (ok: bool)
      requires Valid()
      modifies this`attestations, this`events, clock
      ensures Valid() && Tx(ok, CleanUp(old(Model()), env, key, disputed), old(Model()), Model())
    {
      if key !in attestations || !Expired(attestations[key], env.now) || key in revocations || disputed {
        return false;
      }
      attestations := attestations - {key};
      clock.IncrementCleanupCount();
      events := events + [CleanedUp(key, env.now)];
      return true;
    }

    /** The part of a multi-period submission that touches fees and counters. */
    method IssueMultiPeriod(business: Address, start: nat, end: nat, root: Hash, free: bool) returns (ok: bool)
      requires Valid()
      modifies this`bank, this`events, fees
      ensures Valid() && Tx(ok, IssueRange(old(Model()), business, start, end, root, free), old(Model()), Model())
    {
      if !free {
        return false;
      }
      var before := bank;
      var fee;
      ok, fee := CollectFeeFrom(business, business);
      if ok {
        ok := fees.IncrementBusinessCount(business);
      }
      if ok {
        events := events + [RangeIssued(business, start, end, root)];
      } else {
        bank := before;
      }
    }

    method ConfigureFees(config: DynamicFees.FeeConfig, admin: Address) returns (ok: bool)
      requires Valid()
      modifies this`events, fees
      ensures Valid()
      ensures Tx(ok, ChangeFees(old(Model()), DynamicFees.Configures(config), admin), old(Model()), Model())
    {
      ok := fees.ConfigureFees(config);
      if ok {
        events := events + [FeesConfigured(config, admin)];
      }
    }

    /** Publishes the stored configuration, if there is one. */
    method SetFeeEnabled(enabled: bool, admin: Address)
      requires Valid()
      modifies this`events, fees
      ensures Valid()
      ensures ChangeFees(old(Model()), DynamicFees.Enables(enabled), admin) == Some(Model())
    {
      fees.SetFeeEnabled(enabled);
      if fees.config.Some? {
        events := events + [FeesConfigured(fees.config.value, admin)];
      } else {
        assert events + [] == events;
      }
    }

    method ConfigureFlatFee(config: FlatFees.FlatFeeConfig, admin: Address)
      requires Valid()
      modifies this`events, flat
      ensures Valid()
      ensures ChangeFlatFee(old(Model()), FlatFees.Configures(config), admin) == Some(Model())
    {
      flat.SetFlatFeeConfig(config);
      events := events + [FlatFeeConfigured(config, admin)];
    }

    method GetFeeQuote(business: Address) returns (quote: Option<int>)
      requires Valid()
      ensures quote == Quote(Model(), business)
    {
      var dynamic := fees.CalculateFeeFor(business);
      if dynamic.None? {
        return None;
      }
      var flatFee := if flat.config.Some? && flat.config.value.enabled then flat.config.value.amount else 0;
      if !FitsI128(dynamic.value + flatFee) {
        return None;
      }
      return Some(dynamic.value + flatFee);
    }
  }
}
