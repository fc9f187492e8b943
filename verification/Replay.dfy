/** The off-chain indexer (scripts/indexer_replay.py): a reducer that must rebuild the
    contract's attestations from the events the contract publishes.
 */
module Replay {
  import opened Base
  import opened Attestations
  import Runs = AttestationRuns
  import DynamicFees
  import Epochs
  import FlatFees
  import RateLimit

  /* ---------- Raw events, as they arrive ---------- */

  /** The four lifecycle topics, any other topic, or no topic at all. */
  datatype Topic = TopicSubmitted | TopicRevoked | TopicMigrated | TopicCleanedUp | Other(name: string) | NoTopic

  datatype Field =
    | FBusiness | FPeriod | FMerkleRoot | FTimestamp | FVersion | FFeePaid | FProofHash | FExpiryTimestamp
    | FRevokedBy | FReason | FLedgerTimestamp | FCleanupTimestamp | FMigratedBy
    | FOldMerkleRoot | FNewMerkleRoot | FOldVersion | FNewVersion | FCount | FEpoch | FStartPeriod | FEndPeriod
    | FToken | FCollector | FAmount | FChangedBy

  datatype Value = Text(text: string) | Number(number: int) | Digest(hash: Hash) | Account(account: Address) | Null

  /** Everything of an event that the reducer reads. */
  datatype RawEvent = RawEvent(topic: Topic, business: Option<Address>, data: map<Field, Value>)

  /* ---------- The reducer's state ---------- */

  datatype ReplayKey = ReplayKey(business: Address, period: Value)

  datatype AttestationRecord = AttestationRecord(
    merkleRoot: Value,
    timestamp: int,
    version: int,
    feePaid: int,
    proofHash: Value,
    expiry: Option<int>)

  datatype RevocationRecord = RevocationRecord(revokedBy: Value, timestamp: int, reason: Value)

  datatype AttestationState = AttestationState(
    attestation: Option<AttestationRecord>,
    revocation: Option<RevocationRecord>)

  type State = map<ReplayKey, AttestationState>

  /** An error leaves the state as the events before it made it, and stops the replay. */
  datatype Outcome = Outcome(state: State, count: nat, ok: bool)

  const Fresh := Outcome(map[], 0, true)

  /* ---------- Specification of the reducers ---------- */

  function RequiredFields(topic: Topic): set<Field> {
    match topic
    case TopicSubmitted =>
      {FBusiness, FPeriod, FMerkleRoot, FTimestamp, FVersion, FFeePaid, FProofHash, FExpiryTimestamp}
    case TopicRevoked => {FBusiness, FPeriod, FRevokedBy, FReason}
    case TopicMigrated => {FBusiness, FPeriod, FOldMerkleRoot, FNewMerkleRoot, FOldVersion, FNewVersion, FMigratedBy}
    case TopicCleanedUp => {FBusiness, FPeriod, FCleanupTimestamp}
    case Other(_) => {}
    case NoTopic => {}
  }

  function ToInt(v: Value): Option<int> {
    if v.Number? then Some(v.number) else None
  }

  /** A missing optional number is fine; a present one must be a number. */
  function ToOptionalInt(v: Value): Option<Option<int>> {
    if v == Null then Some(None)
    else if v.Number? then Some(Some(v.number))
    else None
  }

  function ApplySubmitted(s: State, k: ReplayKey, d: map<Field, Value>): Option<State>
    requires RequiredFields(TopicSubmitted) <= d.Keys
  {
    var timestamp, version, fee := ToInt(d[FTimestamp]), ToInt(d[FVersion]), ToInt(d[FFeePaid]);
    var expiry := ToOptionalInt(d[FExpiryTimestamp]);
    if timestamp.None? || version.None? || fee.None? || expiry.None? then None
    else
      var record := AttestationRecord(d[FMerkleRoot], timestamp.value, version.value, fee.value, d[FProofHash],
                                      expiry.value);
      Some(s[k := AttestationState(Some(record), None)])
  }

  predicate Truthy(d: map<Field, Value>, f: Field) {
    f in d && d[f] != Null && d[f] != Number(0) && d[f] != Text("")
  }

  /** The first usable timestamp, or zero. */
  function RevocationTime(d: map<Field, Value>): Option<int> {
    if Truthy(d, FLedgerTimestamp) then ToInt(d[FLedgerTimestamp])
    else if Truthy(d, FTimestamp) then ToInt(d[FTimestamp])
    else Some(0)
  }

  function ApplyRevoked(s: State, k: ReplayKey, d: map<Field, Value>): Option<State>
    requires RequiredFields(TopicRevoked) <= d.Keys
  {
    if k !in s || s[k].attestation.None? || RevocationTime(d).None? then None
    else Some(s[k := s[k].(revocation := Some(RevocationRecord(d[FRevokedBy], RevocationTime(d).value, d[FReason])))])
  }

  function ApplyMigrated(s: State, k: ReplayKey, d: map<Field, Value>): Option<State>
    requires RequiredFields(TopicMigrated) <= d.Keys
  {
    if k !in s || s[k].attestation.None? || s[k].attestation.value.merkleRoot != d[FOldMerkleRoot] then None
    else
      var newer, older := ToInt(d[FNewVersion]), ToInt(d[FOldVersion]);
      if newer.None? || older.None? || newer.value <= older.value then None
      else
        var record := s[k].attestation.value.(merkleRoot := d[FNewMerkleRoot], version := newer.value);
        Some(s[k := s[k].(attestation := Some(record))])
  }

  function ApplyCleanedUp(s: State, k: ReplayKey): Option<State> {
    if k in s then Some(s - {k}) else None
  }

  predicate Known(topic: Topic) {
    topic.TopicSubmitted? || topic.TopicRevoked? || topic.TopicMigrated? || topic.TopicCleanedUp?
  }

  function ApplyKnown(s: State, e: RawEvent, business: Address): Option<State>
    requires Known(e.topic)
  {
    if !(RequiredFields(e.topic) <= e.data.Keys) then None
    else
      var k := ReplayKey(business, e.data[FPeriod]);
      match e.topic
      case TopicSubmitted => ApplySubmitted(s, k, e.data)
      case TopicRevoked => ApplyRevoked(s, k, e.data)
      case TopicMigrated => ApplyMigrated(s, k, e.data)
      case TopicCleanedUp => ApplyCleanedUp(s, k)
  }

  /** The check for a topic and a business comes before the check for a known topic. */
  function Process(o: Outcome, e: RawEvent): Outcome {
    if !o.ok then o
    else if e.topic == NoTopic || e.business.None? then o.(ok := false)
    else if !Known(e.topic) then o
    else
      match ApplyKnown(o.state, e, e.business.value)
      case None => o.(ok := false)
      case Some(next) => Outcome(next, o.count + 1, true)
  }

  function ReplayAll(events: seq<RawEvent>): Outcome {
    if events == [] then Fresh else Process(ReplayAll(events[..|events| - 1]), events[|events| - 1])
  }

  /* ---------- Which streams the reducer accepts ---------- */

  function KeyOfEvent(e: RawEvent): ReplayKey
    requires e.business.Some? && FPeriod in e.data
  {
    ReplayKey(e.business.value, e.data[FPeriod])
  }

  /** The event is one that the reducer would apply to `k`. */
  predicate About(e: RawEvent, k: ReplayKey) {
    e.business.Some? && FPeriod in e.data && KeyOfEvent(e) == k
  }

  /** The newest submission or cleanup of `k` is a submission. */
  function Live(events: seq<RawEvent>, k: ReplayKey): bool {
    if events == [] then false
    else
      var last := events[|events| - 1];
      if About(last, k) && last.topic.TopicSubmitted? then true
      else if About(last, k) && last.topic.TopicCleanedUp? then false
      else Live(events[..|events| - 1], k)
  }

  ghost predicate AllAttested(s: State) {
    forall k :: k in s ==> s[k].attestation.Some?
  }

  lemma ProcessKeepsAttested(o: Outcome, e: RawEvent)
    requires AllAttested(o.state)
    ensures AllAttested(Process(o, e).state)
  {
  }

  /** A number that the reducer takes for a time: present, and not one of the empty values. */
  predicate Usable(d: map<Field, Value>, f: Field) {
    f in d && d[f] !in {Null, Number(0), Text("")}
  }

  /** Exactly when the reducer applies a lifecycle event that names its business and has its
      fields: numbers are numbers; a submission needs nothing else; everything else needs a live
      entry; and a migration also the current root as its old one and a higher version. */
  lemma AppliedIff(o: Outcome, e: RawEvent)
    requires o.ok && AllAttested(o.state) && Known(e.topic) && e.business.Some?
    ensures Process(o, e).ok ==> RequiredFields(e.topic) <= e.data.Keys
    ensures RequiredFields(e.topic) <= e.data.Keys ==>
      var s, d, k := o.state, e.data, KeyOfEvent(e);
      Process(o, e).ok <==>
        match e.topic
        case TopicSubmitted =>
          && d[FTimestamp].Number? && d[FVersion].Number? && d[FFeePaid].Number?
          && (d[FExpiryTimestamp].Number? || d[FExpiryTimestamp].Null?)
        case TopicRevoked =>
          && k in s
          && (Usable(d, FLedgerTimestamp) ==> d[FLedgerTimestamp].Number?)
          && (!Usable(d, FLedgerTimestamp) && Usable(d, FTimestamp) ==> d[FTimestamp].Number?)
        case TopicMigrated =>
          && k in s && s[k].attestation.value.merkleRoot == d[FOldMerkleRoot]
          && d[FNewVersion].Number? && d[FOldVersion].Number? && d[FOldVersion].number < d[FNewVersion].number
        case TopicCleanedUp => k in s
  {
  }

  /** Any other event changes nothing: it is skipped when it names a topic and a business, and
      stops the replay when it does not. */
  lemma OtherEventsChangeNothing(o: Outcome, e: RawEvent)
    requires o.ok && (e.topic.NoTopic? || e.topic.Other? || e.business.None?)
    ensures Process(o, e).state == o.state && Process(o, e).count == o.count
    ensures Process(o, e).ok <==> e.topic.Other? && e.business.Some?
  {
  }

  lemma ProcessKeepsLive(events: seq<RawEvent>, o: Outcome, e: RawEvent, k: ReplayKey)
    requires o.ok && (k in o.state <==> Live(events, k)) && Process(o, e).ok
    ensures k in Process(o, e).state <==> Live(events + [e], k)
  {
    assert (events + [e])[..|events|] == events;
  }

  /** The reducer holds an entry exactly for what is live. So a stream is accepted only if every
      revocation, migration and cleanup in it follows a submission of its key that no cleanup
      has removed: a missing submission is always noticed at the next event about its key. */
  lemma {:induction false} AcceptedStreamsHoldTheLive(events: seq<RawEvent>, k: ReplayKey)
    requires ReplayAll(events).ok
    ensures AllAttested(ReplayAll(events).state)
    ensures k in ReplayAll(events).state <==> Live(events, k)
  {
    if events != [] {
      var front, last := events[..|events| - 1], events[|events| - 1];
      AcceptedStreamsHoldTheLive(front, k);
      ProcessKeepsAttested(ReplayAll(front), last);
      ProcessKeepsLive(front, ReplayAll(front), last, k);
      assert events == front + [last];
    }
  }

  lemma MissingSubmissionIsNoticed(events: seq<RawEvent>, e: RawEvent)
    requires ReplayAll(events).ok
    requires e.topic.TopicRevoked? || e.topic.TopicMigrated? || e.topic.TopicCleanedUp?
    requires e.business.Some? && FPeriod in e.data && !Live(events, KeyOfEvent(e))
    ensures !ReplayAll(events + [e]).ok
  {
    AcceptedStreamsHoldTheLive(events, KeyOfEvent(e));
    assert (events + [e])[..|events|] == events;
  }

  /* ---------- What the contract publishes ---------- */

  function OptionalNumber(n: Option<nat>): Value {
    if n.Some? then Number(n.value) else Null
  }

  function OptionalDigest(h: Option<Hash>): Value {
    if h.Some? then Digest(h.value) else Null
  }

  /** Lifecycle events carry their business as a topic; epoch, summary, checkpoint and fee
      configuration events carry none. */
  function Encode(e: Event): RawEvent {
    match e
    case Submitted(k, d) =>
      RawEvent(TopicSubmitted, Some(k.business), map[
        FBusiness := Account(k.business), FPeriod := Text(k.period), FMerkleRoot := Digest(d.root),
        FTimestamp := Number(d.timestamp), FVersion := Number(d.version), FFeePaid := Number(d.fee),
        FProofHash := OptionalDigest(d.proofHash), FExpiryTimestamp := OptionalNumber(d.expiry)])
    case Revoked(k, revoker, reason) =>
      RawEvent(TopicRevoked, Some(k.business), map[
        FBusiness := Account(k.business), FPeriod := Text(k.period),
        FRevokedBy := Account(revoker), FReason := Text(reason)])
    case Migrated(k, oldRoot, newRoot, oldVersion, newVersion, migrator) =>
      RawEvent(TopicMigrated, Some(k.business), map[
        FBusiness := Account(k.business), FPeriod := Text(k.period),
        FOldMerkleRoot := Digest(oldRoot), FNewMerkleRoot := Digest(newRoot),
        FOldVersion := Number(oldVersion), FNewVersion := Number(newVersion), FMigratedBy := Account(migrator)])
    case CleanedUp(k, at) =>
      RawEvent(TopicCleanedUp, Some(k.business), map[
        FBusiness := Account(k.business), FPeriod := Text(k.period), FCleanupTimestamp := Number(at)])
    case RangeIssued(b, start, end, root) =>
      RawEvent(Other("mul_iss"), Some(b), map[
        FBusiness := Account(b), FStartPeriod := Number(start), FEndPeriod := Number(end), FMerkleRoot := Digest(root)])
    case FeesConfigured(c, admin) =>
      RawEvent(Other("fee_cfg"), None, map[
        FToken := Account(c.token), FCollector := Account(c.collector), FAmount := Number(c.baseFee),
        FChangedBy := Account(admin)])
    case FlatFeeConfigured(c, admin) =>
      RawEvent(Other("ff_cfg"), None, map[
        FToken := Account(c.token), FCollector := Account(c.collector), FAmount := Number(c.amount),
        FChangedBy := Account(admin)])
    case EpochCheckpoint(period, root, submissions, _, at) =>
      RawEvent(Other("ep_ckpt"), None, map[
        FPeriod := Text(period), FMerkleRoot := Digest(root), FCount := Number(submissions), FTimestamp := Number(at)])
    case BackfillCheckpoint(count, root) =>
      RawEvent(Other("bkf_chk"), None, map[FCount := Number(count), FMerkleRoot := Digest(root)])
    case Boundary(note) =>
      match note
      case Summary(epoch, removed, at) =>
        RawEvent(Other("cl_sum"), None, map[
          FEpoch := Number(epoch), FCount := Number(removed), FTimestamp := Number(at)])
      case Advanced(epoch, at) =>
        RawEvent(Other("ep_adv"), None, map[FEpoch := Number(epoch), FTimestamp := Number(at)])
  }

  predicate Lifecycle(e: Event) {
    e.Submitted? || e.Revoked? || e.Migrated? || e.CleanedUp?
  }

  function FullStream(events: seq<Event>): seq<RawEvent> {
    if events == [] then [] else FullStream(events[..|events| - 1]) + [Encode(events[|events| - 1])]
  }

  function LifecycleStream(events: seq<Event>): seq<RawEvent> {
    if events == [] then []
    else
      var last := events[|events| - 1];
      LifecycleStream(events[..|events| - 1]) + if Lifecycle(last) then [Encode(last)] else []
  }

  /* ---------- The lifecycle stream rebuilds the ledger ---------- */

  function RecordOf(d: AttestationData): AttestationRecord {
    AttestationRecord(Digest(d.root), d.timestamp, d.version, d.fee, OptionalDigest(d.proofHash),
      if d.expiry.Some? then Some(d.expiry.value) else None)
  }

  /** The published revocation has no timestamp, so the replayed one is zero. */
  function RevocationOf(r: Revocation): RevocationRecord {
    RevocationRecord(Account(r.revoker), 0, Text(r.reason))
  }

  function StateOf(l: Ledger, k: Key): AttestationState
    requires k in l.attestations
  {
    AttestationState(Some(RecordOf(l.attestations[k])),
      if k in l.revocations then Some(RevocationOf(l.revocations[k])) else None)
  }

  function ReplayKeyOf(k: Key): ReplayKey {
    ReplayKey(k.business, Text(k.period))
  }

  /** The replayed state is the contract's attestation and revocation maps, key for key. */
  ghost predicate Mirrors(s: State, l: Ledger) {
    && (forall k :: ReplayKeyOf(k) in s <==> k in l.attestations)
    && (forall k :: k in l.attestations ==> s[ReplayKeyOf(k)] == StateOf(l, k))
    && (forall rk :: rk in s ==> rk.period.Text?)
    && l.revocations.Keys <= l.attestations.Keys
  }

  ghost predicate Rebuilt(l: Ledger) {
    ReplayAll(LifecycleStream(l.events)).ok && Mirrors(ReplayAll(LifecycleStream(l.events)).state, l)
  }

  lemma StreamOneMore(events: seq<Event>, e: Event)
    ensures LifecycleStream(events + [e]) == LifecycleStream(events) + if Lifecycle(e) then [Encode(e)] else []
    ensures ReplayAll(LifecycleStream(events + [e])) ==
              if Lifecycle(e) then Process(ReplayAll(LifecycleStream(events)), Encode(e))
              else ReplayAll(LifecycleStream(events))
  {
    assert (events + [e])[..|events|] == events;
    var before := LifecycleStream(events);
    assert (before + [Encode(e)])[..|before|] == before;
    assert before + [] == before;
  }

  lemma {:induction false} BoundariesAreSilent(events: seq<Event>, notes: seq<Epochs.Note>)
    ensures LifecycleStream(events + Boundaries(notes)) == LifecycleStream(events)
  {
    if notes == [] {
      assert events + Boundaries(notes) == events;
    } else {
      var front, last := notes[..|notes| - 1], notes[|notes| - 1];
      BoundariesAreSilent(events, front);
      assert events + Boundaries(notes) == events + Boundaries(front) + [Boundary(last)];
      StreamOneMore(events + Boundaries(front), Boundary(last));
    }
  }

  /** `after` differs from `l` at one attestation only, which it has. */
  ghost predicate ChangesOnly(l: Ledger, after: Ledger, k: Key) {
    && k in after.attestations
    && (forall x :: x != k ==> (x in after.attestations <==> x in l.attestations))
    && (forall x :: x != k && x in l.attestations ==> after.attestations[x] == l.attestations[x])
    && (forall x :: x != k ==> (x in after.revocations <==> x in l.revocations))
    && (forall x :: x != k && x in l.revocations ==> after.revocations[x] == l.revocations[x])
  }

  lemma ChangeMirrors(s: State, l: Ledger, after: Ledger, k: Key)
    requires Mirrors(s, l) && ChangesOnly(l, after, k)
    ensures Mirrors(s[ReplayKeyOf(k) := StateOf(after, k)], after)
  {
    var next := s[ReplayKeyOf(k) := StateOf(after, k)];
    forall x ensures ReplayKeyOf(x) in next <==> x in after.attestations {
      assert ReplayKeyOf(x) == ReplayKeyOf(k) <==> x == k;
    }
    forall x | x in after.attestations ensures next[ReplayKeyOf(x)] == StateOf(after, x) {
      assert ReplayKeyOf(x) == ReplayKeyOf(k) <==> x == k;
    }
  }

  lemma SubmittedEffect(o: Outcome, k: Key, d: AttestationData)
    requires o.ok
    ensures Process(o, Encode(Submitted(k, d))) ==
              Outcome(o.state[ReplayKeyOf(k) := AttestationState(Some(RecordOf(d)), None)], o.count + 1, true)
  {
    var e := Encode(Submitted(k, d));
    assert ApplyKnown(o.state, e, k.business) == ApplySubmitted(o.state, ReplayKeyOf(k), e.data);
  }

  lemma RevokedEffect(o: Outcome, k: Key, revoker: Address, reason: string, st: AttestationState)
    requires o.ok && ReplayKeyOf(k) in o.state && o.state[ReplayKeyOf(k)] == st && st.attestation.Some?
    ensures Process(o, Encode(Revoked(k, revoker, reason))) ==
              Outcome(o.state[ReplayKeyOf(k) := st.(
                        revocation := Some(RevocationRecord(Account(revoker), 0, Text(reason))))],
                      o.count + 1, true)
  {
    var e := Encode(Revoked(k, revoker, reason));
    assert ApplyKnown(o.state, e, k.business) == ApplyRevoked(o.state, ReplayKeyOf(k), e.data);
  }

  lemma MigratedEffect(o: Outcome, k: Key, oldRoot: Hash, root: Hash, older: nat, version: nat, migrator: Address,
                       r: AttestationRecord)
    requires o.ok && ReplayKeyOf(k) in o.state && o.state[ReplayKeyOf(k)].attestation == Some(r)
    requires r.merkleRoot == Digest(oldRoot) && older < version
    ensures Process(o, Encode(Migrated(k, oldRoot, root, older, version, migrator))) ==
              Outcome(o.state[ReplayKeyOf(k) := o.state[ReplayKeyOf(k)].(
                        attestation := Some(r.(merkleRoot := Digest(root), version := version)))],
                      o.count + 1, true)
  {
    var e := Encode(Migrated(k, oldRoot, root, older, version, migrator));
    assert ApplyKnown(o.state, e, k.business) == ApplyMigrated(o.state, ReplayKeyOf(k), e.data);
  }

  lemma SubmittedMirrors(o: Outcome, l: Ledger, k: Key, d: AttestationData, after: Ledger)
    requires o.ok && Mirrors(o.state, l) && k !in l.attestations
    requires after.attestations == l.attestations[k := d] && after.revocations == l.revocations
    ensures Process(o, Encode(Submitted(k, d))).ok
    ensures Mirrors(Process(o, Encode(Submitted(k, d))).state, after)
  {
    SubmittedEffect(o, k, d);
    assert StateOf(after, k) == AttestationState(Some(RecordOf(d)), None);
    ChangeMirrors(o.state, l, after, k);
  }

  lemma RevokedMirrors(o: Outcome, l: Ledger, k: Key, r: Revocation, after: Ledger)
    requires o.ok && Mirrors(o.state, l) && k in l.attestations
    requires after.attestations == l.attestations && after.revocations == l.revocations[k := r]
    ensures Process(o, Encode(Revoked(k, r.revoker, r.reason))).ok
    ensures Mirrors(Process(o, Encode(Revoked(k, r.revoker, r.reason))).state, after)
  {
    RevokedEffect(o, k, r.revoker, r.reason, StateOf(l, k));
    ChangeMirrors(o.state, l, after, k);
  }

  lemma MigratedMirrors(o: Outcome, l: Ledger, k: Key, root: Hash, version: nat, migrator: Address, after: Ledger)
    requires o.ok && Mirrors(o.state, l) && k in l.attestations && version > l.attestations[k].version
    requires after.attestations == l.attestations[k := l.attestations[k].(root := root, version := version)]
    requires after.revocations == l.revocations
    ensures
      var d := l.attestations[k];
      var next := Process(o, Encode(Migrated(k, d.root, root, d.version, version, migrator)));
      next.ok && Mirrors(next.state, after)
  {
    var d := l.attestations[k];
    MigratedEffect(o, k, d.root, root, d.version, version, migrator, RecordOf(d));
    ChangeMirrors(o.state, l, after, k);
  }

  lemma CleanedUpEffect(o: Outcome, k: Key, at: nat)
    requires o.ok && ReplayKeyOf(k) in o.state
    ensures Process(o, Encode(CleanedUp(k, at))) == Outcome(o.state - {ReplayKeyOf(k)}, o.count + 1, true)
  {
    var e := Encode(CleanedUp(k, at));
    assert ApplyKnown(o.state, e, k.business) == ApplyCleanedUp(o.state, ReplayKeyOf(k));
  }

  lemma CleanedUpMirrors(o: Outcome, l: Ledger, k: Key, at: nat, after: Ledger)
    requires o.ok && Mirrors(o.state, l) && k in l.attestations && k !in l.revocations
    requires after.attestations == l.attestations - {k} && after.revocations == l.revocations
    ensures Process(o, Encode(CleanedUp(k, at))).ok
    ensures Mirrors(Process(o, Encode(CleanedUp(k, at))).state, after)
  {
    CleanedUpEffect(o, k, at);
    forall x ensures ReplayKeyOf(x) in o.state - {ReplayKeyOf(k)} <==> x in after.attestations {
      assert ReplayKeyOf(x) == ReplayKeyOf(k) <==> x == k;
    }
  }

  lemma OneHeardEvent(events: seq<Event>, heard: Event, silent: Event, silentToo: Event)
    requires Lifecycle(heard) && !Lifecycle(silent) && !Lifecycle(silentToo)
    ensures
      var o := Process(ReplayAll(LifecycleStream(events)), Encode(heard));
      && ReplayAll(LifecycleStream(events + [heard] + [silent])) == o
      && ReplayAll(LifecycleStream(events + [heard] + [silent] + [silentToo])) == o
  {
    StreamOneMore(events, heard);
    StreamOneMore(events + [heard], silent);
    StreamOneMore(events + [heard] + [silent], silentToo);
  }

  /** All events of one submission but its first are silent for the reducer. */
  lemma SubmissionStream(l: Ledger, env: Env, item: Item, fee: int)
    ensures ReplayAll(LifecycleStream(Write(l, env, item, fee).events)) ==
              Process(ReplayAll(LifecycleStream(l.events)), Encode(Submitted(item.key, DataOf(item, fee))))
  {
    var after, submitted := Write(l, env, item, fee), Submitted(item.key, DataOf(item, fee));
    var checkpoint := EpochCheckpoint(item.key.period, item.root, after.epochSubs[item.key.period],
                                      after.epochFees[item.key.period], env.now);
    var backfill := BackfillCheckpoint(after.backfill, item.root);
    OneHeardEvent(l.events, submitted, checkpoint, backfill);
    assert after.events == l.events + [submitted] + [checkpoint]
           || after.events == l.events + [submitted] + [checkpoint] + [backfill];
  }

  lemma PerformRebuilds(l: Ledger, env: Env, payer: Address, attestor: Option<Address>, item: Item, after: Ledger)
    requires Rebuilt(l) && item.key !in l.attestations && Perform(l, env, payer, attestor, item) == Some(after)
    ensures Rebuilt(after)
  {
    Runs.PerformSteps(l, env, payer, attestor, item);
    var checked := RateLimit.Check(l.limiter, item.key.business, env.now).value;
    var rolled := RollEpoch(l.(limiter := checked), env.now);
    var charged := Charge(l, payer, item.key.business).value;
    RollIsSilent(l, checked, env.now);
    var data := DataOf(item, charged.fee);
    var written := Store(rolled, env, attestor, item, charged).value;
    StoreStream(rolled, env, attestor, item, charged, written);
    SubmittedMirrors(ReplayAll(LifecycleStream(l.events)), l, item.key, data, written);
  }

  lemma RollIsSilent(l: Ledger, limiter: Limiter, now: nat)
    ensures
      var rolled := RollEpoch(l.(limiter := limiter), now);
      && LifecycleStream(rolled.events) == LifecycleStream(l.events)
      && rolled.attestations == l.attestations && rolled.revocations == l.revocations
  {
    var clock := Epochs.RollOver(l.clock, now);
    BoundariesAreSilent(l.events, if |l.clock.log| <= |clock.log| then clock.log[|l.clock.log|..] else []);
  }

  lemma StoreStream(l: Ledger, env: Env, attestor: Option<Address>, item: Item, c: Charged, after: Ledger)
    requires Store(l, env, attestor, item, c) == Some(after)
    ensures ReplayAll(LifecycleStream(after.events)) ==
              Process(ReplayAll(LifecycleStream(l.events)), Encode(Submitted(item.key, DataOf(item, c.fee))))
    ensures after.attestations == l.attestations[item.key := DataOf(item, c.fee)] && after.revocations == l.revocations
  {
    var attestors := if attestor.Some? then l.attestors[item.key := attestor.value] else l.attestors;
    SubmissionStream(l.(schedule := after.schedule, bank := c.bank, attestors := attestors), env, item, c.fee);
  }

  lemma PerformRebuildsIf(before: Ledger, env: Env, payer: Address, attestor: Option<Address>, item: Item,
                          after: Ledger)
    requires item.key !in before.attestations && Perform(before, env, payer, attestor, item) == Some(after)
    ensures Rebuilt(before) ==> Rebuilt(after)
  {
    if Rebuilt(before) {
      PerformRebuilds(before, env, payer, attestor, item, after);
    }
  }

  lemma FreeLast(l: Ledger, env: Env, items: seq<Item>, before: Ledger)
    requires items != [] && AllAcceptable(l, env, items) && DistinctKeys(items)
    requires AddsKeys(l, before, KeysOf(items[..|items| - 1]))
    ensures AllAcceptable(l, env, items[..|items| - 1]) && DistinctKeys(items[..|items| - 1])
    ensures items[|items| - 1].key !in before.attestations
  {
    assert items == items[..|items| - 1] + [items[|items| - 1]];
    SplitLast(l, env, items[..|items| - 1], items[|items| - 1]);
  }

  /** The last step of a committed batch. */
  lemma RebuildsLast(l: Ledger, env: Env, attestor: Option<Address>, items: seq<Item>, after: Ledger)
    returns (before: Ledger)
    requires items != [] && Performs(l, env, attestor, items) == Some(after)
    ensures Performs(l, env, attestor, items[..|items| - 1]) == Some(before)
    ensures items[|items| - 1].key !in before.attestations ==> (Rebuilt(before) ==> Rebuilt(after))
  {
    var last := items[|items| - 1];
    before := Performs(l, env, attestor, items[..|items| - 1]).value;
    if last.key !in before.attestations {
      PerformRebuildsIf(before, env, PayerOf(attestor, last), attestor, last, after);
    }
  }

  lemma RebuildsValidLast(l: Ledger, env: Env, attestor: Option<Address>, items: seq<Item>, after: Ledger)
    returns (before: Ledger)
    requires items != [] && AllAcceptable(l, env, items) && DistinctKeys(items)
    requires Performs(l, env, attestor, items) == Some(after)
    ensures AllAcceptable(l, env, items[..|items| - 1]) && DistinctKeys(items[..|items| - 1])
    ensures Performs(l, env, attestor, items[..|items| - 1]) == Some(before)
    ensures Rebuilt(before) ==> Rebuilt(after)
  {
    before := RebuildsLast(l, env, attestor, items, after);
    PerformsAddTheirKeys(l, env, attestor, items[..|items| - 1], before);
    FreeLast(l, env, items, before);
  }

  lemma {:induction false} PerformsRebuild(l: Ledger, env: Env, attestor: Option<Address>, items: seq<Item>,
                                           after: Ledger)
    requires Rebuilt(l) && AllAcceptable(l, env, items) && DistinctKeys(items)
    requires Performs(l, env, attestor, items) == Some(after)
    ensures Rebuilt(after)
  {
    if items == [] {
      assert after == l;
    } else {
      var before := RebuildsValidLast(l, env, attestor, items, after);
      PerformsRebuild(l, env, attestor, items[..|items| - 1], before);
    }
  }

  lemma BatchRebuilds(l: Ledger, env: Env, attestor: Option<Address>, items: seq<Item>, after: Ledger)
    requires Rebuilt(l) && ExecuteBatch(l, env, attestor, items) == Some(after)
    ensures Rebuilt(after)
  {
    PerformsRebuild(l, env, attestor, items, after);
  }

  lemma ExecuteRebuilds(l: Ledger, env: Env, payer: Address, attestor: Option<Address>, item: Item, after: Ledger)
    requires Rebuilt(l) && Execute(l, env, payer, attestor, item) == Some(after)
    ensures Rebuilt(after)
  {
    PerformRebuilds(l, env, payer, attestor, item, after);
  }

  lemma RevokeRebuilds(l: Ledger, env: Env, caller: Address, key: Key, reason: string, authorized: bool, after: Ledger)
    requires Rebuilt(l) && Revoke(l, env, caller, key, reason, authorized) == Some(after)
    ensures Rebuilt(after)
  {
    StreamOneMore(l.events, Revoked(key, caller, reason));
    RevokedMirrors(ReplayAll(LifecycleStream(l.events)), l, key, Revocation(caller, env.now, reason), after);
  }

  lemma MigrateRebuilds(l: Ledger, env: Env, caller: Address, key: Key, root: Hash, version: nat, after: Ledger)
    requires Rebuilt(l) && Migrate(l, env, caller, key, root, version) == Some(after)
    ensures Rebuilt(after)
  {
    var d := l.attestations[key];
    StreamOneMore(l.events, Migrated(key, d.root, root, d.version, version, caller));
    MigratedMirrors(ReplayAll(LifecycleStream(l.events)), l, key, root, version, caller, after);
  }

  lemma CleanUpRebuilds(l: Ledger, env: Env, key: Key, disputed: bool, after: Ledger)
    requires Rebuilt(l) && CleanUp(l, env, key, disputed) == Some(after)
    ensures Rebuilt(after)
  {
    StreamOneMore(l.events, CleanedUp(key, env.now));
    CleanedUpMirrors(ReplayAll(LifecycleStream(l.events)), l, key, env.now, after);
  }

  lemma RangeRebuilds(l: Ledger, b: Address, start: nat, end: nat, root: Hash, free: bool, after: Ledger)
    requires Rebuilt(l) && IssueRange(l, b, start, end, root, free) == Some(after)
    ensures Rebuilt(after)
  {
    StreamOneMore(l.events, RangeIssued(b, start, end, root));
    assert Mirrors(ReplayAll(LifecycleStream(l.events)).state, after);
  }

  lemma CallRebuilds(l: Ledger, c: Runs.Call, after: Ledger)
    requires Rebuilt(l) && Runs.Attempt(l, c) == Some(after)
    ensures Rebuilt(after)
  {
    match c
    case Submits(env, payer, attestor, item) => ExecuteRebuilds(l, env, payer, attestor, item, after);
    case SubmitsBatch(env, attestor, items) => BatchRebuilds(l, env, attestor, items, after);
    case Revokes(env, caller, key, reason, authorized) =>
      RevokeRebuilds(l, env, caller, key, reason, authorized, after);
    case Migrates(env, caller, key, root, version) => MigrateRebuilds(l, env, caller, key, root, version, after);
    case CleansUp(env, key, disputed) => CleanUpRebuilds(l, env, key, disputed, after);
    case IssuesRange(b, start, end, root, free) => RangeRebuilds(l, b, start, end, root, free, after);
    case _ => SettingsRebuild(l, c, after);
  }

  lemma SettingsRebuild(l: Ledger, c: Runs.Call, after: Ledger)
    requires c.SetsLimits? || c.SetsFees? || c.SetsFlatFee? || c.MovesTokens?
    requires Rebuilt(l) && Runs.Attempt(l, c) == Some(after)
    ensures Rebuilt(after)
  {
    var notice := SettingsKeepStream(l, c, after);
    if notice == [] {
      assert after.events == l.events;
    } else {
      assert notice == [notice[0]];
      StreamOneMore(l.events, notice[0]);
    }
    SameMapsMirror(ReplayAll(LifecycleStream(l.events)).state, l, after);
  }

  lemma SameMapsMirror(s: State, l: Ledger, after: Ledger)
    requires Mirrors(s, l) && after.attestations == l.attestations && after.revocations == l.revocations
    ensures Mirrors(s, after)
  {
    forall k | k in after.attestations ensures s[ReplayKeyOf(k)] == StateOf(after, k) {
      assert StateOf(after, k) == StateOf(l, k);
    }
  }

  /** The notice of a changed setting is silent for the lifecycle, and nothing else is published. */
  lemma SettingsKeepStream(l: Ledger, c: Runs.Call, after: Ledger) returns (notice: seq<Event>)
    requires c.SetsLimits? || c.SetsFees? || c.SetsFlatFee? || c.MovesTokens?
    requires Runs.Attempt(l, c) == Some(after)
    ensures |notice| <= 1 && after.events == l.events + notice
    ensures forall i :: 0 <= i < |notice| ==> !Lifecycle(notice[i])
    ensures after.attestations == l.attestations && after.revocations == l.revocations
  {
    Runs.SettingsKeepTotals(l, c, after);
    notice := Runs.NoticeOf(c, after);
  }

  /** For every run of submissions, batches, revocations, migrations, cleanups and setting
      changes, the lifecycle events replay without error and end with exactly the contract's
      attestation map and, for each revoked attestation, its revoker and reason. */
  lemma {:induction false} LifecycleStreamRebuildsTheLedger(calls: seq<Runs.Call>)
    ensures ReplayAll(LifecycleStream(Runs.After(calls).events)).ok
    ensures Mirrors(ReplayAll(LifecycleStream(Runs.After(calls).events)).state, Runs.After(calls))
  {
    if calls != [] {
      var before, c := Runs.After(calls[..|calls| - 1]), calls[|calls| - 1];
      LifecycleStreamRebuildsTheLedger(calls[..|calls| - 1]);
      if Runs.Attempt(before, c).Some? {
        CallRebuilds(before, c, Runs.Attempt(before, c).value);
      }
    }
  }

  /** The one field that is lost: a revocation made at ledger time zero is the only one whose
      replayed timestamp agrees with the contract. */
  lemma RevocationTimeAgreesIff(calls: seq<Runs.Call>, k: Key)
    requires k in Runs.After(calls).revocations
    ensures
      var l, s := Runs.After(calls), ReplayAll(LifecycleStream(Runs.After(calls).events)).state;
      && ReplayKeyOf(k) in s && s[ReplayKeyOf(k)].revocation.Some?
      && s[ReplayKeyOf(k)].revocation.value.revokedBy == Account(l.revocations[k].revoker)
      && s[ReplayKeyOf(k)].revocation.value.reason == Text(l.revocations[k].reason)
      && (s[ReplayKeyOf(k)].revocation.value.timestamp == l.revocations[k].timestamp
          <==> l.revocations[k].timestamp == 0)
  {
    LifecycleStreamRebuildsTheLedger(calls);
    assert k in Runs.After(calls).attestations;
  }

  /* ---------- The full stream does not replay ---------- */

  /** Published without a business topic. */
  predicate Silent(e: Event) {
    e.EpochCheckpoint? || e.BackfillCheckpoint? || e.Boundary? || e.FeesConfigured? || e.FlatFeeConfigured?
  }

  predicate HasSilent(events: seq<Event>) {
    exists i :: 0 <= i < |events| && Silent(events[i])
  }

  lemma {:induction false} SilentEventStopsReplay(events: seq<Event>)
    requires HasSilent(events)
    ensures !ReplayAll(FullStream(events)).ok
  {
    var front, last := events[..|events| - 1], events[|events| - 1];
    var before := FullStream(front);
    assert (before + [Encode(last)])[..|before|] == before;
    if !Silent(last) {
      var i :| 0 <= i < |events| && Silent(events[i]);
      assert front[i] == events[i];
      SilentEventStopsReplay(front);
    }
  }

  /** The calls that publish something without a business when they commit: a submission its
      checkpoint, a fee configuration itself. */
  predicate Unattributed(c: Runs.Call) {
    || c.Submits? || c.SubmitsBatch?
    || (c.SetsFees? && c.fees.Configures?)
    || (c.SetsFlatFee? && c.flat.Configures?)
  }

  /** Call `n` of the run is such a call, and it commits. */
  predicate Announces(calls: seq<Runs.Call>, n: nat)
    requires n < |calls|
  {
    Unattributed(calls[n]) && Runs.Attempt(Runs.After(calls[..n]), calls[n]).Some?
  }

  /** Some call of the run did. */
  predicate Announced(calls: seq<Runs.Call>) {
    if calls == [] then false else Announced(calls[..|calls| - 1]) || Announces(calls, |calls| - 1)
  }

  lemma AnnouncedBefore(calls: seq<Runs.Call>, n: nat)
    requires n < |calls| - 1
    ensures Announces(calls, n) <==> Announces(calls[..|calls| - 1], n)
  {
    assert calls[..n] == calls[..|calls| - 1][..n];
  }

  lemma {:induction false} AnnouncedOnce(calls: seq<Runs.Call>, n: nat)
    requires n < |calls| && Announces(calls, n)
    ensures Announced(calls)
  {
    if n < |calls| - 1 {
      AnnouncedBefore(calls, n);
      AnnouncedOnce(calls[..|calls| - 1], n);
    }
  }

  lemma {:induction false} FirstAnnounced(calls: seq<Runs.Call>) returns (n: nat)
    requires Announced(calls)
    ensures n < |calls| && Announces(calls, n)
  {
    if Announced(calls[..|calls| - 1]) {
      n := FirstAnnounced(calls[..|calls| - 1]);
      AnnouncedBefore(calls, n);
    } else {
      n := |calls| - 1;
    }
  }

  ghost predicate OnlyRanges(events: seq<Event>) {
    forall i :: 0 <= i < |events| ==> events[i].RangeIssued?
  }

  /** Until then only multi-period ranges are published, and no fee is stored that could be
      switched on or off; from then on an event without a business is always in the stream. */
  ghost predicate SilentOnce(announced: bool, l: Ledger) {
    if announced then HasSilent(l.events)
    else l.attestations == map[] && l.schedule.config.None? && OnlyRanges(l.events)
  }

  /** The reducer skips what it does not know, if it names a business. */
  lemma {:induction false} RangesAreSkipped(events: seq<Event>)
    requires OnlyRanges(events)
    ensures ReplayAll(FullStream(events)) == Fresh
  {
    if events != [] {
      var front, last := events[..|events| - 1], events[|events| - 1];
      RangesAreSkipped(front);
      var before := FullStream(front);
      assert (before + [Encode(last)])[..|before|] == before;
    }
  }

  lemma WriteIsSilentToo(l: Ledger, env: Env, attestor: Option<Address>, item: Item, c: Charged, after: Ledger)
    requires Store(l, env, attestor, item, c) == Some(after)
    ensures HasSilent(after.events)
  {
    assert after.events[|l.events| + 1].EpochCheckpoint?;
  }

  lemma PerformIsSilentToo(l: Ledger, env: Env, payer: Address, attestor: Option<Address>, item: Item, after: Ledger)
    requires Perform(l, env, payer, attestor, item) == Some(after)
    ensures HasSilent(after.events)
  {
    Runs.PerformSteps(l, env, payer, attestor, item);
    var rolled := RollEpoch(l.(limiter := RateLimit.Check(l.limiter, item.key.business, env.now).value), env.now);
    WriteIsSilentToo(rolled, env, attestor, item, Charge(l, payer, item.key.business).value, after);
  }

  lemma BatchIsSilentToo(l: Ledger, env: Env, attestor: Option<Address>, items: seq<Item>, after: Ledger)
    requires ExecuteBatch(l, env, attestor, items) == Some(after)
    ensures HasSilent(after.events)
  {
    var last := items[|items| - 1];
    var before := Performs(l, env, attestor, items[..|items| - 1]).value;
    PerformIsSilentToo(before, env, PayerOf(attestor, last), attestor, last, after);
  }

  lemma MoreKeepsSilent(events: seq<Event>, e: Event)
    ensures HasSilent(events) || Silent(e) ==> HasSilent(events + [e])
  {
    assert (events + [e])[|events|] == e;
    if i :| 0 <= i < |events| && Silent(events[i]) {
      assert (events + [e])[i] == events[i];
    }
  }

  /** Every other call publishes at most one event. */
  lemma OtherCallsPublish(l: Ledger, c: Runs.Call, after: Ledger) returns (published: seq<Event>)
    requires !c.Submits? && !c.SubmitsBatch? && Runs.Attempt(l, c) == Some(after)
    ensures |published| <= 1 && after.events == l.events + published
    ensures Unattributed(c) ==> |published| == 1 && Silent(published[0])
    ensures l.attestations == map[] ==> after.attestations == map[]
    ensures !Unattributed(c) && l.schedule.config.None? ==> after.schedule.config.None?
    ensures !Unattributed(c) && l.schedule.config.None? && l.attestations == map[] ==> OnlyRanges(published)
  {
    match c
    case Revokes(env, caller, key, reason, _) => published := [Revoked(key, caller, reason)];
    case Migrates(env, caller, key, root, version) =>
      var d := l.attestations[key];
      published := [Migrated(key, d.root, root, d.version, version, caller)];
    case CleansUp(env, key, _) => published := [CleanedUp(key, env.now)];
    case IssuesRange(b, start, end, root, _) => published := [RangeIssued(b, start, end, root)];
    case _ =>
      Runs.SettingsKeepTotals(l, c, after);
      published := Runs.NoticeOf(c, after);
  }

  lemma CallKeepsSilent(l: Ledger, c: Runs.Call, announced: bool, after: Ledger)
    requires SilentOnce(announced, l) && Runs.Attempt(l, c) == Some(after)
    ensures SilentOnce(announced || Unattributed(c), after)
  {
    if c.Submits? {
      PerformIsSilentToo(l, c.env, c.payer, c.attestor, c.item, after);
    } else if c.SubmitsBatch? {
      BatchIsSilentToo(l, c.env, c.batchAttestor, c.items, after);
    } else {
      var published := OtherCallsPublish(l, c, after);
      if published == [] {
        assert after.events == l.events;
      } else {
        assert published == [published[0]];
        MoreKeepsSilent(l.events, published[0]);
      }
    }
  }

  lemma {:induction false} EveryRunIsSilentOnce(calls: seq<Runs.Call>)
    ensures SilentOnce(Announced(calls), Runs.After(calls))
  {
    if calls != [] {
      var front, c := calls[..|calls| - 1], calls[|calls| - 1];
      EveryRunIsSilentOnce(front);
      if Runs.Attempt(Runs.After(front), c).Some? {
        CallKeepsSilent(Runs.After(front), c, Announced(front), Runs.Attempt(Runs.After(front), c).value);
      }
    }
  }

  /** The contract's whole stream, which the reducer claims to skip through, is accepted exactly
      while no submission and no fee configuration was committed: each of them publishes an
      event without a business, and the reducer rejects that before it looks at the topic. */
  lemma FullStreamReplaysIff(calls: seq<Runs.Call>)
    ensures ReplayAll(FullStream(Runs.After(calls).events)).ok <==>
              !exists n: nat :: n < |calls| && Announces(calls, n)
  {
    EveryRunIsSilentOnce(calls);
    if Announced(calls) {
      var n := FirstAnnounced(calls);
      SilentEventStopsReplay(Runs.After(calls).events);
    } else {
      forall n: nat | n < |calls| ensures !Announces(calls, n) {
        if Announces(calls, n) {
          AnnouncedOnce(calls, n);
        }
      }
      RangesAreSkipped(Runs.After(calls).events);
    }
  }

  lemma OneCallAnnounces(c: Runs.Call)
    requires Unattributed(c) && Runs.Attempt(Genesis, c).Some?
    ensures !ReplayAll(FullStream(Runs.After([c]).events)).ok
  {
    assert [c][..0] == [];
    assert Announces([c], 0);
    FullStreamReplaysIff([c]);
  }

  /** The shortest such runs: one configuration of either fee, without any attestation. */
  lemma ConfiguringStopsReplay(dynamic: DynamicFees.FeeConfig, flat: FlatFees.FlatFeeConfig, admin: Address)
    requires dynamic.baseFee >= 0
    ensures !ReplayAll(FullStream(Runs.After([Runs.SetsFees(DynamicFees.Configures(dynamic), admin)]).events)).ok
    ensures !ReplayAll(FullStream(Runs.After([Runs.SetsFlatFee(FlatFees.Configures(flat), admin)]).events)).ok
  {
    OneCallAnnounces(Runs.SetsFees(DynamicFees.Configures(dynamic), admin));
    OneCallAnnounces(Runs.SetsFlatFee(FlatFees.Configures(flat), admin));
  }

  /* ---------- The reducer ---------- */

  lemma {:induction false} ReplayStops(events: seq<RawEvent>, n: nat)
    requires n <= |events| && !ReplayAll(events[..n]).ok
    ensures ReplayAll(events) == ReplayAll(events[..n])
  {
    if n == |events| {
      assert events[..n] == events;
    } else {
      assert events[..|events| - 1][..n] == events[..n];
      ReplayStops(events[..|events| - 1], n);
    }
  }

  class IndexerReplayer {
    var state: State
    var eventCount: nat

    constructor ()
      ensures Outcome(state, eventCount, true) == Fresh
    {
      state, eventCount := map[], 0;
    }

    method ProcessEvent(e: RawEvent) returns (ok: bool)
      modifies this
      ensures Outcome(state, eventCount, ok) == Process(Outcome(old(state), old(eventCount), true), e)
    {
      if e.topic == NoTopic || e.business.None? {
        return false;
      }
      if !Known(e.topic) {
        return true;
      }
      if !(RequiredFields(e.topic) <= e.data.Keys) {
        return false;
      }
      var k := ReplayKey(e.business.value, e.data[FPeriod]);
      match e.topic {
        case TopicSubmitted => ok := ReduceSubmitted(k, e.data);
        case TopicRevoked => ok := ReduceRevoked(k, e.data);
        case TopicMigrated => ok := ReduceMigrated(k, e.data);
        case TopicCleanedUp => ok := ReduceCleanedUp(k);
      }
      if ok {
        eventCount := eventCount + 1;
      }
    }

    method ReduceSubmitted(k: ReplayKey, d: map<Field, Value>) returns (ok: bool)
      requires RequiredFields(TopicSubmitted) <= d.Keys
      modifies this`state
      ensures Tx(ok, ApplySubmitted(old(state), k, d), old(state), state)
    {
      var timestamp, version, fee := ToInt(d[FTimestamp]), ToInt(d[FVersion]), ToInt(d[FFeePaid]);
      var expiry := ToOptionalInt(d[FExpiryTimestamp]);
      if timestamp.None? || version.None? || fee.None? || expiry.None? {
        return false;
      }
      var record := AttestationRecord(d[FMerkleRoot], timestamp.value, version.value, fee.value, d[FProofHash],
                                      expiry.value);
      state := state[k := AttestationState(Some(record), None)];
      return true;
    }

    method ReduceRevoked(k: ReplayKey, d: map<Field, Value>) returns (ok: bool)
      requires RequiredFields(TopicRevoked) <= d.Keys
      modifies this`state
      ensures Tx(ok, ApplyRevoked(old(state), k, d), old(state), state)
    {
      if k !in state || state[k].attestation.None? {
        return false;
      }
      var timestamp := RevocationTime(d);
      if timestamp.None? {
        return false;
      }
      state := state[k := state[k].(revocation := Some(RevocationRecord(d[FRevokedBy], timestamp.value, d[FReason])))];
      return true;
    }

    method ReduceMigrated(k: ReplayKey, d: map<Field, Value>) returns (ok: bool)
      requires RequiredFields(TopicMigrated) <= d.Keys
      modifies this`state
      ensures Tx(ok, ApplyMigrated(old(state), k, d), old(state), state)
    {
      if k !in state || state[k].attestation.None? {
        return false;
      }
      var record := state[k].attestation.value;
      if record.merkleRoot != d[FOldMerkleRoot] {
        return false;
      }
      var newer, older := ToInt(d[FNewVersion]), ToInt(d[FOldVersion]);
      if newer.None? || older.None? || newer.value <= older.value {
        return false;
      }
      var migrated := record.(merkleRoot := d[FNewMerkleRoot], version := newer.value);
      state := state[k := state[k].(attestation := Some(migrated))];
      return true;
    }

    method ReduceCleanedUp(k: ReplayKey) returns (ok: bool)
      modifies this`state
      ensures Tx(ok, ApplyCleanedUp(old(state), k), old(state), state)
    {
      ok := k in state;
      if ok {
        state := state - {k};
      }
    }

    /** Replays a stream into a fresh reducer; stops at the first error. */
    method ReplayStream(events: seq<RawEvent>) returns (ok: bool)
      requires Outcome(state, eventCount, true) == Fresh
      modifies this
      ensures Outcome(state, eventCount, ok) == ReplayAll(events)
    {
      for i := 0 to |events|
        invariant Outcome(state, eventCount, true) == ReplayAll(events[..i])
      {
        assert events[..i + 1][..i] == events[..i];
        ok := ProcessEvent(events[i]);
        if !ok {
          ReplayStops(events, i + 1);
          return;
        }
      }
      assert events[..|events|] == events;
      ok := true;
    }
  }
}
