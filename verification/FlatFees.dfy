/** Flat attestation fees (contracts/attestation/src/fees.rs): one configuration, and a bounded
    history of the configuration in force at each epoch.
 */
module FlatFees {
  import opened Base

  const MAX_EPOCH_HISTORY: nat := 100

  datatype FlatFeeConfig = FlatFeeConfig(token: Address, collector: Address, amount: int, enabled: bool)

  /** `history` lists the epochs that have a snapshot, in the order they first got one. */
  datatype Book = Book(
    config: Option<FlatFeeConfig>,
    epoch: nat,
    snapshots: map<nat, FlatFeeConfig>,
    history: seq<nat>)

  const Blank := Book(None, 0, map[], [])

  /* ---------- Specification ---------- */

  /** Drops the oldest epochs until the history fits. */
  function Prune(b: Book): Book
    decreases |b.history|
  {
    if |b.history| <= MAX_EPOCH_HISTORY then b
    else Prune(b.(snapshots := b.snapshots - {b.history[0]}, history := b.history[1..]))
  }

  function Persist(b: Book, e: nat): Book {
    match b.config
    case None => b
    case Some(c) =>
      Prune(b.(snapshots := b.snapshots[e := c], history := if e in b.history then b.history else b.history + [e]))
  }

  /** Nothing checks the sign of the amount. */
  function Configure(b: Book, c: FlatFeeConfig): Book {
    Persist(b.(config := Some(c)), b.epoch)
  }

  function SetEpoch(b: Book, e: nat): Book {
    Persist(b.(epoch := e), e)
  }

  function AdvanceEpoch(b: Book): Option<Book> {
    if b.epoch >= U64_MAX then None else Some(SetEpoch(b, b.epoch + 1))
  }

  /** What a quote adds for the flat fee. */
  function QuotedAmount(c: Option<FlatFeeConfig>): int {
    match c
    case None => 0
    case Some(f) => if f.enabled then f.amount else 0
  }

  /** What a submission is charged for it. */
  function ChargedAmount(c: Option<FlatFeeConfig>): nat {
    match c
    case None => 0
    case Some(f) => if f.enabled && f.amount > 0 then f.amount else 0
  }

  function QuoteAtEpoch(b: Book, e: nat): int {
    QuotedAmount(Lookup(b.snapshots, e))
  }

  /** A quote and a charge agree unless an enabled configuration has a negative amount. */
  lemma QuoteIsChargeIff(c: Option<FlatFeeConfig>)
    ensures QuotedAmount(c) == ChargedAmount(c) <==> !(c.Some? && c.value.enabled && c.value.amount < 0)
  {
    match c
    case None =>
    case Some(f) => assert f.enabled && f.amount < 0 ==> QuotedAmount(c) < ChargedAmount(c);
  }

  /* ---------- Runs ---------- */

  datatype Call = Configures(config: FlatFeeConfig) | Sets(epoch: nat) | Advances

  function Attempt(b: Book, c: Call): Option<Book> {
    match c
    case Configures(config) => Some(Configure(b, config))
    case Sets(e) => Some(SetEpoch(b, e))
    case Advances => AdvanceEpoch(b)
  }

  function After(calls: seq<Call>): Book {
    if calls == [] then Blank
    else
      var before := After(calls[..|calls| - 1]);
      Attempt(before, calls[|calls| - 1]).GetOr(before)
  }

  /** The history is duplicate-free and bounded, and lists exactly the epochs with a snapshot. */
  ghost predicate HistoryOk(b: Book) {
    && Distinct(b.history)
    && |b.history| <= MAX_EPOCH_HISTORY
    && forall e :: e in b.snapshots <==> e in b.history
  }

  /** The current epoch always carries the current configuration. */
  ghost predicate Current(b: Book) {
    if b.config.None? then b.history == [] else Lookup(b.snapshots, b.epoch) == b.config
  }

  /** What one persisted snapshot does: epoch `e` holds the configuration, and at most the
      oldest epoch disappears. */
  lemma PersistEffect(b: Book, e: nat)
    requires HistoryOk(b) && b.config.Some?
    ensures HistoryOk(Persist(b, e))
    ensures Lookup(Persist(b, e).snapshots, e) == b.config
    ensures Persist(b, e).config == b.config && Persist(b, e).epoch == b.epoch
    ensures forall x :: x in Persist(b, e).snapshots && x != e ==>
              x in b.snapshots && Persist(b, e).snapshots[x] == b.snapshots[x]
    ensures
      Persist(b, e).history ==
        if e in b.history then b.history
        else if |b.history| < MAX_EPOCH_HISTORY then b.history + [e]
        else b.history[1..] + [e]
  {
    var next := b.(snapshots := b.snapshots[e := b.config.value],
                   history := if e in b.history then b.history else b.history + [e]);
    assert Distinct(next.history);
    if |next.history| > MAX_EPOCH_HISTORY {
      var oldest, rest := next.history[0], next.history[1..];
      assert |rest| == MAX_EPOCH_HISTORY && rest == b.history[1..] + [e];
      assert Prune(next) == next.(snapshots := next.snapshots - {oldest}, history := rest);
      OldestGone(next.history);
      forall x ensures x in next.snapshots - {oldest} <==> x in rest {
        assert x in next.history <==> x == oldest || x in rest;
      }
    }
  }

  lemma OldestGone(h: seq<nat>)
    requires Distinct(h) && h != []
    ensures h[0] !in h[1..] && Distinct(h[1..])
    ensures forall x :: x in h <==> x == h[0] || x in h[1..]
  {
    assert forall i :: 0 <= i < |h| - 1 ==> h[1..][i] == h[i + 1];
    assert h == [h[0]] + h[1..];
  }

  /** Every call ends by persisting a snapshot of this book for its own epoch. */
  function Prepared(b: Book, c: Call): Book {
    match c
    case Configures(config) => b.(config := Some(config))
    case Sets(e) => b.(epoch := e)
    case Advances => b.(epoch := b.epoch + 1)
  }

  lemma CallEffect(b: Book, c: Call)
    requires HistoryOk(b) && Current(b) && Attempt(b, c).Some?
    ensures
      var before, after := Prepared(b, c), Attempt(b, c).value;
      && HistoryOk(after) && Current(after)
      && after.config == before.config && after.epoch == before.epoch
      && (forall x :: x in after.snapshots && x != after.epoch ==>
            x in b.snapshots && after.snapshots[x] == b.snapshots[x])
  {
    assert Attempt(b, c).value == Persist(Prepared(b, c), Prepared(b, c).epoch);
    if Prepared(b, c).config.Some? {
      PersistEffect(Prepared(b, c), Prepared(b, c).epoch);
    }
  }

  lemma {:induction false} EveryBookIsOk(calls: seq<Call>)
    ensures HistoryOk(After(calls)) && Current(After(calls))
  {
    if calls != [] {
      var before, c := After(calls[..|calls| - 1]), calls[|calls| - 1];
      EveryBookIsOk(calls[..|calls| - 1]);
      if Attempt(before, c).Some? {
        CallEffect(before, c);
      }
    }
  }

  /** The configuration in force when the run last was in epoch `e`. */
  function LastInForce(calls: seq<Call>, e: nat): Option<FlatFeeConfig> {
    if calls == [] then None
    else if After(calls).epoch == e && After(calls).config.Some? then After(calls).config
    else LastInForce(calls[..|calls| - 1], e)
  }

  /** In every run each retained epoch quotes the configuration that was last in force in it,
      and the current epoch quotes the live configuration. */
  lemma {:induction false} HistoryIsFaithful(calls: seq<Call>, e: nat)
    ensures e in After(calls).history ==> Lookup(After(calls).snapshots, e) == LastInForce(calls, e)
    ensures QuoteAtEpoch(After(calls), After(calls).epoch) == QuotedAmount(After(calls).config)
  {
    EveryBookIsOk(calls);
    if calls != [] {
      var front, c := calls[..|calls| - 1], calls[|calls| - 1];
      HistoryIsFaithful(front, e);
      EveryBookIsOk(front);
      if Attempt(After(front), c).Some? {
        CallEffect(After(front), c);
      }
    }
  }

  /* ---------- The contract ---------- */

  class FlatFeeBook {
    var config: Option<FlatFeeConfig>
    var epoch: nat
    var snapshots: map<nat, FlatFeeConfig>
    var history: seq<nat>

    function Model(): Book
      reads this
    {
      Book(config, epoch, snapshots, history)
    }

    constructor ()
      ensures Model() == Blank
    {
      config, epoch, snapshots, history := None, 0, map[], [];
    }

    method PersistEpochSnapshotFor(e: nat)
      modifies this`snapshots, this`history
      ensures Model() == Persist(old(Model()), e)
    {
      if config.None? {
        return;
      }
      snapshots := snapshots[e := config.value];
      var exists_ := false;
      for i := 0 to |history|
        invariant history == old(history)
        invariant exists_ <==> e in history[..i]
      {
        assert history[..i + 1] == history[..i] + [history[i]];
        if history[i] == e {
          exists_ := true;
          break;
        }
      }
      assert history[..|history|] == history;
      if !exists_ {
        history := history + [e];
      }
      while |history| > MAX_EPOCH_HISTORY
        invariant Prune(Model()) == Persist(old(Model()), e)
        decreases |history|
      {
        snapshots := snapshots - {history[0]};
        history := history[1..];
      }
    }

    method SetFlatFeeConfig(c: FlatFeeConfig)
      modifies this
      ensures Model() == Configure(old(Model()), c)
    {
      config := Some(c);
      PersistEpochSnapshotFor(epoch);
    }

    method SetCurrentEpoch(e: nat)
      modifies this
      ensures Model() == SetEpoch(old(Model()), e)
    {
      epoch := e;
      PersistEpochSnapshotFor(e);
    }

    method AdvanceCurrentEpoch() returns (ok: bool)
      modifies this
      ensures Tx(ok, AdvanceEpoch(old(Model())), old(Model()), Model())
      ensures ok <==> old(epoch) < U64_MAX
    {
      if epoch >= U64_MAX {
        return false;
      }
      SetCurrentEpoch(epoch + 1);
      return true;
    }
  }
}
