/** The attestor staking contract (contracts/attestor-staking/src/lib.rs): deposits, an
    unbonding queue per attestor, and slashing that eats the queue from the back.
 */
module Staking {
  import opened Base

  const MAX_PENDING: nat := 10

  datatype Stake = Stake(amount: int, locked: int)

  datatype Pending = Pending(amount: int, unlockAt: nat)

  datatype Vault = Vault(
    stakes: map<Address, Stake>,
    pending: map<Address, seq<Pending>>,
    slashed: set<nat>,
    unbonding: nat,
    tokens: Balances)
  {
    function Queue(a: Address): seq<Pending> {
      Get(pending, a, [])
    }

    function AmountOf(a: Address): int {
      if a in stakes then stakes[a].amount else 0
    }
  }

  /** The two addresses fixed at initialization; the treasury is never the contract itself. */
  datatype Roles = Roles(self: Address, treasury: Address) {
    predicate Valid() {
      self != treasury
    }
  }

  /* ---------- Queue functions ---------- */

  function Sum(q: seq<Pending>): int {
    if q == [] then 0 else Sum(q[..|q| - 1]) + q[|q| - 1].amount
  }

  /** Total of the requests whose unlock time has come. */
  function RipeTotal(q: seq<Pending>, now: nat): int {
    if q == [] then 0
    else RipeTotal(q[..|q| - 1], now) + if now >= q[|q| - 1].unlockAt then q[|q| - 1].amount else 0
  }

  /** The requests that must still wait, in order. */
  function Unripe(q: seq<Pending>, now: nat): seq<Pending> {
    if q == [] then []
    else Unripe(q[..|q| - 1], now) + if now >= q[|q| - 1].unlockAt then [] else [q[|q| - 1]]
  }

  /** Takes `excess` out of the queue, newest request first. */
  function CutFromBack(q: seq<Pending>, excess: int): seq<Pending> {
    if q == [] then []
    else
      var last := q[|q| - 1];
      var taken := Min(last.amount, excess);
      CutFromBack(q[..|q| - 1], excess - taken) + [last.(amount := last.amount - taken)]
  }

  /** A new request never unlocks before the newest one already queued. */
  function UnlockTime(q: seq<Pending>, now: nat, unbonding: nat): nat {
    var earliest := SatAdd(now, unbonding, U64_MAX);
    if q == [] then earliest else Max(earliest, q[|q| - 1].unlockAt)
  }

  /* ---------- Specification of the operations ---------- */

  function StakeTokens(v: Vault, r: Roles, a: Address, amount: int): Option<Vault> {
    var stake := Get(v.stakes, a, Stake(0, 0));
    if amount <= 0 || stake.amount + amount > I128_MAX then None
    else
      match Transfer(v.tokens, a, r.self, amount)
      case None => None
      case Some(tokens) =>
        Some(v.(stakes := v.stakes[a := stake.(amount := stake.amount + amount)], tokens := tokens))
  }

  function RequestUnstake(v: Vault, a: Address, amount: int, now: nat): Option<Vault> {
    var q := v.Queue(a);
    if amount <= 0 || |q| >= MAX_PENDING || a !in v.stakes then None
    else if v.stakes[a].amount - v.stakes[a].locked < amount then None
    else Some(v.(
      stakes := v.stakes[a := v.stakes[a].(locked := v.stakes[a].locked + amount)],
      pending := v.pending[a := q + [Pending(amount, UnlockTime(q, now, v.unbonding))]]))
  }

  function Withdraw(v: Vault, r: Roles, a: Address, now: nat): Option<Vault> {
    if a !in v.pending then None
    else
      var total, rest := RipeTotal(v.pending[a], now), Unripe(v.pending[a], now);
      if total <= 0 || a !in v.stakes || v.stakes[a].locked < total || v.stakes[a].amount < total then None
      else
        match Transfer(v.tokens, r.self, a, total)
        case None => None
        case Some(tokens) =>
          Some(v.(
            stakes := v.stakes[a := Stake(v.stakes[a].amount - total, v.stakes[a].locked - total)],
            pending := if rest == [] then v.pending - {a} else v.pending[a := rest],
            tokens := tokens))
  }

  /** How much a slash takes: never more than is staked. */
  function SlashSize(v: Vault, a: Address, amount: int): int {
    Min(amount, v.AmountOf(a))
  }

  function SlashedQueue(q: seq<Pending>, locked: int): seq<Pending> {
    if Sum(q) > locked then CutFromBack(q, Sum(q) - locked) else q
  }

  /** An empty stake is a `NoSlash`: nothing changes, and the dispute stays unprocessed. */
  function Slash(v: Vault, r: Roles, a: Address, amount: int, dispute: nat): Option<Vault> {
    if amount <= 0 || dispute in v.slashed || a !in v.stakes then None
    else if SlashSize(v, a, amount) == 0 then Some(v)
    else
      var left := v.stakes[a].amount - SlashSize(v, a, amount);
      var locked := Min(v.stakes[a].locked, left);
      match Transfer(v.tokens, r.self, r.treasury, SlashSize(v, a, amount))
      case None => None
      case Some(tokens) =>
        Some(v.(
          stakes := v.stakes[a := Stake(left, locked)],
          pending := if a in v.pending then v.pending[a := SlashedQueue(v.pending[a], locked)] else v.pending,
          slashed := v.slashed + {dispute},
          tokens := tokens))
  }

  /* ---------- Queue facts ---------- */

  ghost predicate NonNegative(q: seq<Pending>) {
    forall i :: 0 <= i < |q| ==> q[i].amount >= 0
  }

  ghost predicate SortedByUnlock(q: seq<Pending>) {
    forall i, j :: 0 <= i < j < |q| ==> q[i].unlockAt <= q[j].unlockAt
  }

  /** Every request can mature: no unlock time lies beyond the 64-bit ledger clock. */
  ghost predicate WithinClock(q: seq<Pending>) {
    forall i :: 0 <= i < |q| ==> q[i].unlockAt <= U64_MAX
  }

  ghost predicate QueueOk(q: seq<Pending>) {
    |q| <= MAX_PENDING && NonNegative(q) && SortedByUnlock(q) && WithinClock(q)
  }

  /** `p` is `q` with some amounts lowered and every unlock time kept. */
  ghost predicate Lowered(p: seq<Pending>, q: seq<Pending>) {
    && |p| == |q|
    && forall i :: 0 <= i < |q| ==> p[i].unlockAt == q[i].unlockAt && 0 <= p[i].amount <= q[i].amount
  }

  lemma SumAppend(q: seq<Pending>, p: Pending)
    ensures Sum(q + [p]) == Sum(q) + p.amount
  {
    assert (q + [p])[..|q|] == q;
  }

  lemma {:induction false} SumNonNegative(q: seq<Pending>)
    requires NonNegative(q)
    ensures Sum(q) >= 0
  {
    if q != [] {
      SumNonNegative(q[..|q| - 1]);
    }
  }

  lemma {:induction false} SumConcat(p: seq<Pending>, q: seq<Pending>)
    ensures Sum(p + q) == Sum(p) + Sum(q)
  {
    if q == [] {
      assert p + q == p;
    } else {
      assert (p + q)[..|p + q| - 1] == p + q[..|q| - 1];
      SumConcat(p, q[..|q| - 1]);
    }
  }

  lemma {:induction false} RipeAndUnripeSplitTheSum(q: seq<Pending>, now: nat)
    requires NonNegative(q)
    ensures RipeTotal(q, now) + Sum(Unripe(q, now)) == Sum(q)
    ensures RipeTotal(q, now) >= 0
    ensures NonNegative(Unripe(q, now))
  {
    if q != [] {
      var front, last := q[..|q| - 1], q[|q| - 1];
      RipeAndUnripeSplitTheSum(front, now);
      SumAppend(Unripe(front, now), last);
      assert Unripe(front, now) + [] == Unripe(front, now);
    }
  }

  /** How many requests at the head of the queue have matured. */
  function Matured(q: seq<Pending>, now: nat): int {
    |q| - |Unripe(q, now)|
  }

  lemma {:induction false} NothingUnripe(q: seq<Pending>, now: nat)
    requires forall i :: 0 <= i < |q| ==> now >= q[i].unlockAt
    ensures Unripe(q, now) == []
  {
    if q != [] {
      NothingUnripe(q[..|q| - 1], now);
    }
  }

  /** In a queue sorted by unlock time the matured requests are exactly a prefix. */
  lemma {:induction false} MaturedIsPrefix(q: seq<Pending>, now: nat)
    requires SortedByUnlock(q)
    ensures 0 <= Matured(q, now) <= |q|
    ensures Unripe(q, now) == q[Matured(q, now)..]
    ensures forall i :: 0 <= i < |q| ==> (now >= q[i].unlockAt <==> i < Matured(q, now))
  {
    if q == [] {
    } else if now >= q[|q| - 1].unlockAt {
      NothingUnripe(q, now);
    } else {
      var front, last := q[..|q| - 1], q[|q| - 1];
      MaturedIsPrefix(front, now);
      assert Unripe(q, now) == front[Matured(front, now)..] + [last] == q[Matured(front, now)..];
    }
  }

  lemma UnripeKeepsOrder(q: seq<Pending>, now: nat)
    requires QueueOk(q)
    ensures QueueOk(Unripe(q, now))
  {
    MaturedIsPrefix(q, now);
    var k := Matured(q, now);
    assert forall i :: 0 <= i < |q[k..]| ==> q[k..][i] == q[k + i];
  }

  lemma UnripeIsSuffix(q: seq<Pending>, now: nat)
    requires SortedByUnlock(q)
    ensures 0 <= Matured(q, now) <= |q| && Unripe(q, now) == q[Matured(q, now)..]
  {
    MaturedIsPrefix(q, now);
  }

  lemma WithdrawnIsPrefixSum(q: seq<Pending>, now: nat)
    requires QueueOk(q)
    ensures 0 <= Matured(q, now) <= |q|
    ensures RipeTotal(q, now) == Sum(q[..Matured(q, now)])
  {
    UnripeIsSuffix(q, now);
    RipeAndUnripeSplitTheSum(q, now);
    SumSplits(q, Matured(q, now));
  }

  lemma SumSplits(q: seq<Pending>, k: nat)
    requires k <= |q|
    ensures Sum(q) == Sum(q[..k]) + Sum(q[k..])
  {
    SumConcat(q[..k], q[k..]);
    assert q[..k] + q[k..] == q;
  }

  lemma {:induction false} CutLowers(q: seq<Pending>, excess: int)
    requires NonNegative(q) && 0 <= excess
    ensures Lowered(CutFromBack(q, excess), q)
  {
    if q != [] {
      var front, last := q[..|q| - 1], q[|q| - 1];
      CutLowers(front, excess - Min(last.amount, excess));
    }
  }

  /** A cut removes exactly `excess` and never moves an unlock time. */
  lemma {:induction false} CutIsExact(q: seq<Pending>, excess: int)
    requires NonNegative(q) && 0 <= excess <= Sum(q)
    ensures Sum(CutFromBack(q, excess)) == Sum(q) - excess
    ensures Lowered(CutFromBack(q, excess), q)
  {
    CutLowers(q, excess);
    if q != [] {
      var front, last := q[..|q| - 1], q[|q| - 1];
      var taken := Min(last.amount, excess);
      SumNonNegative(front);
      CutIsExact(front, excess - taken);
      SumAppend(CutFromBack(front, excess - taken), last.(amount := last.amount - taken));
    }
  }

  lemma {:induction false} CutNothing(q: seq<Pending>)
    requires NonNegative(q)
    ensures CutFromBack(q, 0) == q
  {
    if q != [] {
      CutNothing(q[..|q| - 1]);
    }
  }

  /** The newest-first order: whatever is older than a touched request is touched only after
      every newer request is empty. */
  lemma {:induction false} CutIsLastInFirstOut(q: seq<Pending>, excess: int, i: nat, j: nat)
    requires NonNegative(q)
    requires 0 <= excess <= Sum(q) && i < j < |q|
    ensures |CutFromBack(q, excess)| == |q|
    ensures CutFromBack(q, excess)[i] != q[i] ==> CutFromBack(q, excess)[j].amount == 0
  {
    var front, last := q[..|q| - 1], q[|q| - 1];
    var taken := Min(last.amount, excess);
    CutIsExact(q, excess);
    SumNonNegative(front);
    CutIsExact(front, excess - taken);
    if j < |front| {
      CutIsLastInFirstOut(front, excess - taken, i, j);
    } else if taken == excess {
      CutNothing(front);
    }
  }

  lemma LoweredKeepsOrder(p: seq<Pending>, q: seq<Pending>)
    requires QueueOk(q) && Lowered(p, q)
    ensures QueueOk(p)
  {
  }

  lemma SlashedQueueKeepsOrder(q: seq<Pending>, locked: int)
    requires QueueOk(q) && 0 <= locked <= Sum(q)
    ensures QueueOk(SlashedQueue(q, locked)) && Sum(SlashedQueue(q, locked)) == locked
  {
    if Sum(q) > locked {
      CutIsExact(q, Sum(q) - locked);
      LoweredKeepsOrder(SlashedQueue(q, locked), q);
    }
  }

  /* ---------- The invariant of every reachable vault ---------- */

  ghost predicate AccountOk(s: Stake, q: seq<Pending>) {
    && 0 <= s.locked <= s.amount <= I128_MAX
    && QueueOk(q)
    && Sum(q) == s.locked
  }

  ghost predicate VaultOk(v: Vault) {
    && v.pending.Keys <= v.stakes.Keys
    && forall a :: a in v.stakes ==> AccountOk(v.stakes[a], v.Queue(a))
  }

  lemma QueuedInOrder(q: seq<Pending>, amount: int, now: nat, unbonding: nat)
    requires QueueOk(q) && |q| < MAX_PENDING && amount >= 0
    ensures QueueOk(q + [Pending(amount, UnlockTime(q, now, unbonding))])
  {
  }

  lemma RequestKeepsOk(v: Vault, a: Address, amount: int, now: nat)
    requires VaultOk(v) && RequestUnstake(v, a, amount, now).Some?
    ensures VaultOk(RequestUnstake(v, a, amount, now).value)
  {
    var next := RequestUnstake(v, a, amount, now).value;
    assert AccountOk(v.stakes[a], v.Queue(a));
    QueuedInOrder(v.Queue(a), amount, now, v.unbonding);
    SumAppend(v.Queue(a), Pending(amount, UnlockTime(v.Queue(a), now, v.unbonding)));
    forall x | x in next.stakes ensures AccountOk(next.stakes[x], next.Queue(x)) {
      assert AccountOk(v.stakes[x], v.Queue(x));
    }
  }

  lemma WithdrawKeepsOk(v: Vault, r: Roles, a: Address, now: nat)
    requires VaultOk(v) && Withdraw(v, r, a, now).Some?
    ensures VaultOk(Withdraw(v, r, a, now).value)
  {
    var next := Withdraw(v, r, a, now).value;
    forall x | x in next.stakes ensures AccountOk(next.stakes[x], next.Queue(x)) {
      assert AccountOk(v.stakes[x], v.Queue(x));
      if x == a {
        RipeAndUnripeSplitTheSum(v.Queue(a), now);
        UnripeKeepsOrder(v.Queue(a), now);
        assert next.Queue(a) == Unripe(v.Queue(a), now);
      }
    }
  }

  lemma SlashKeepsOk(v: Vault, r: Roles, a: Address, amount: int, dispute: nat)
    requires VaultOk(v) && Slash(v, r, a, amount, dispute).Some?
    ensures VaultOk(Slash(v, r, a, amount, dispute).value)
  {
    var next := Slash(v, r, a, amount, dispute).value;
    forall x | x in next.stakes ensures AccountOk(next.stakes[x], next.Queue(x)) {
      assert AccountOk(v.stakes[x], v.Queue(x));
      if x == a && next != v {
        SlashedQueueKeepsOrder(v.Queue(a), next.stakes[a].locked);
      }
    }
  }

  /** The two "invariant violated" assertions of a withdrawal can never fire: in a reachable
      vault it commits exactly when something positive has matured and the receiver has room. */
  lemma WithdrawCommitsIff(v: Vault, r: Roles, a: Address, now: nat)
    requires VaultOk(v) && a != r.self && BalanceOf(v.tokens, r.self) >= v.AmountOf(a)
    ensures a in v.pending ==> RipeTotal(v.pending[a], now) <= v.stakes[a].locked <= v.stakes[a].amount
    ensures Withdraw(v, r, a, now).Some? <==>
              && a in v.pending
              && RipeTotal(v.pending[a], now) > 0
              && BalanceOf(v.tokens, a) + RipeTotal(v.pending[a], now) <= I128_MAX
  {
    if a in v.pending {
      assert AccountOk(v.stakes[a], v.Queue(a));
      RipeAndUnripeSplitTheSum(v.pending[a], now);
      SumNonNegative(Unripe(v.pending[a], now));
    }
  }

  /** Exactly when a deposit commits: a positive amount that the stake, the depositor's balance and
      the contract's balance have room for. */
  lemma StakeCommitsIff(v: Vault, r: Roles, a: Address, amount: int)
    requires a != r.self
    ensures StakeTokens(v, r, a, amount).Some? <==>
              && amount > 0
              && v.AmountOf(a) + amount <= I128_MAX
              && BalanceOf(v.tokens, a) >= amount
              && BalanceOf(v.tokens, r.self) + amount <= I128_MAX
    ensures StakeTokens(v, r, a, amount).Some? ==>
              var next := StakeTokens(v, r, a, amount).value;
              && next.AmountOf(a) == v.AmountOf(a) + amount
              && next.stakes[a].locked == Get(v.stakes, a, Stake(0, 0)).locked
              && next.pending == v.pending
  {
  }

  /** Exactly when a request is queued: a positive amount within the unlocked stake, and fewer
      than ten requests waiting. */
  lemma RequestCommitsIff(v: Vault, a: Address, amount: int, now: nat)
    ensures RequestUnstake(v, a, amount, now).Some? <==>
              && amount > 0 && |v.Queue(a)| < MAX_PENDING
              && a in v.stakes && amount <= v.stakes[a].amount - v.stakes[a].locked
    ensures RequestUnstake(v, a, amount, now).Some? ==>
              var next := RequestUnstake(v, a, amount, now).value;
              && next.AmountOf(a) == v.AmountOf(a) && next.stakes[a].locked == v.stakes[a].locked + amount
              && next.tokens == v.tokens
  {
  }

  /** Exactly when a slash commits. A dispute is punished once, and only if it took something. */
  lemma SlashCommitsIff(v: Vault, r: Roles, a: Address, amount: int, dispute: nat)
    requires VaultOk(v) && r.Valid() && BalanceOf(v.tokens, r.self) >= v.AmountOf(a)
    ensures Slash(v, r, a, amount, dispute).Some? <==>
              && amount > 0 && dispute !in v.slashed && a in v.stakes
              && (v.AmountOf(a) == 0 || BalanceOf(v.tokens, r.treasury) + Min(amount, v.AmountOf(a)) <= I128_MAX)
    ensures Slash(v, r, a, amount, dispute).Some? ==>
              (dispute in Slash(v, r, a, amount, dispute).value.slashed <==> v.AmountOf(a) > 0)
  {
    if a in v.stakes {
      assert AccountOk(v.stakes[a], v.Queue(a));
    }
  }

  /** A committed request queues its amount behind the unchanged queue. It unlocks after the
      unbonding period, or with the newest request before it if that is later. */
  lemma RequestWaits(v: Vault, a: Address, amount: int, now: nat, next: Vault)
    requires RequestUnstake(v, a, amount, now) == Some(next)
    ensures
      var q, earliest := v.Queue(a), Min(now + v.unbonding, U64_MAX);
      && |next.Queue(a)| == |q| + 1 && next.Queue(a)[..|q|] == q
      && next.Queue(a)[|q|].amount == amount
      && next.Queue(a)[|q|].unlockAt >= earliest
      && next.Queue(a)[|q|].unlockAt == if q == [] then earliest else Max(earliest, q[|q| - 1].unlockAt)
    ensures forall t: nat :: t < now + v.unbonding <= U64_MAX ==>
              && RipeTotal(next.Queue(a), t) == RipeTotal(v.Queue(a), t)
              && Matured(next.Queue(a), t) == Matured(v.Queue(a), t)
  {
    var q, entry := v.Queue(a), Pending(amount, UnlockTime(v.Queue(a), now, v.unbonding));
    assert next.Queue(a) == q + [entry];
    assert (q + [entry])[..|q|] == q;
  }

  /** A withdrawal pays out exactly the matured prefix and keeps the rest in order. */
  lemma WithdrawPaysMaturedPrefix(v: Vault, r: Roles, a: Address, now: nat) returns (k: nat)
    requires VaultOk(v) && a != r.self && Withdraw(v, r, a, now).Some?
    ensures
      var next, q := Withdraw(v, r, a, now).value, v.Queue(a);
      && k <= |q| && (forall i :: 0 <= i < |q| ==> (now >= q[i].unlockAt <==> i < k))
      && next.Queue(a) == q[k..]
      && next.AmountOf(a) == v.AmountOf(a) - Sum(q[..k])
      && BalanceOf(next.tokens, a) == BalanceOf(v.tokens, a) + Sum(q[..k])
  {
    assert AccountOk(v.stakes[a], v.Queue(a));
    MaturedIsPrefix(v.Queue(a), now);
    WithdrawnIsPrefixSum(v.Queue(a), now);
    k := Matured(v.Queue(a), now);
  }

  lemma SlashedQueueIsCut(q: seq<Pending>, locked: int, newLocked: int)
    requires NonNegative(q) && Sum(q) == locked && newLocked <= locked
    ensures SlashedQueue(q, newLocked) == CutFromBack(q, locked - newLocked)
  {
    if newLocked == locked {
      CutNothing(q);
    }
  }

  lemma SlashEffect(v: Vault, r: Roles, a: Address, amount: int, dispute: nat, next: Vault)
    requires VaultOk(v) && r.Valid() && Slash(v, r, a, amount, dispute) == Some(next) && SlashSize(v, a, amount) > 0
    ensures
      var left := v.AmountOf(a) - SlashSize(v, a, amount);
      && a in v.stakes && a in next.stakes
      && next.stakes[a] == Stake(left, Min(v.stakes[a].locked, left))
      && next.Queue(a) == SlashedQueue(v.Queue(a), next.stakes[a].locked)
      && BalanceOf(next.tokens, r.treasury) == BalanceOf(v.tokens, r.treasury) + SlashSize(v, a, amount)
  {
    assert AccountOk(v.stakes[a], v.Queue(a));
  }

  /** A slash takes unlocked stake first. Only what is left over comes out of the queue, and
      there the cut equals the drop in `locked`, newest request first. */
  lemma SlashTakesFreeStakeFirst(v: Vault, r: Roles, a: Address, amount: int, dispute: nat)
    requires VaultOk(v) && r.Valid() && Slash(v, r, a, amount, dispute).Some? && SlashSize(v, a, amount) > 0
    ensures
      var next, cut := Slash(v, r, a, amount, dispute).value, SlashSize(v, a, amount);
      var free := v.stakes[a].amount - v.stakes[a].locked;
      && next.AmountOf(a) == v.AmountOf(a) - cut
      && v.stakes[a].locked - next.stakes[a].locked == Max(0, cut - free)
      && next.Queue(a) == CutFromBack(v.Queue(a), Max(0, cut - free))
      && Sum(v.Queue(a)) - Sum(next.Queue(a)) == v.stakes[a].locked - next.stakes[a].locked
      && BalanceOf(next.tokens, r.treasury) == BalanceOf(v.tokens, r.treasury) + cut
  {
    assert AccountOk(v.stakes[a], v.Queue(a));
    var next := Slash(v, r, a, amount, dispute).value;
    SlashEffect(v, r, a, amount, dispute, next);
    SlashedQueueIsCut(v.Queue(a), v.stakes[a].locked, next.stakes[a].locked);
    SlashedQueueKeepsOrder(v.Queue(a), next.stakes[a].locked);
  }

  /* ---------- Runs and their books ---------- */

  datatype Op =
    | Deposit(a: Address, amount: int)
    | Request(a: Address, amount: int, now: nat)
    | Release(a: Address, now: nat)
    | Punish(a: Address, amount: int, dispute: nat)
    | SetUnbondingPeriod(seconds: nat)
    | OutsideTransfer(from: Address, to: Address, amount: int)
  {
    /** The contract's own address never signs as an attestor or as an outside sender. */
    predicate Authorized(self: Address) {
      match this
      case Deposit(a, _) => a != self
      case Release(a, _) => a != self
      case OutsideTransfer(from, _, _) => from != self
      case _ => true
    }
  }

  function Apply(v: Vault, r: Roles, op: Op): Option<Vault> {
    match op
    case Deposit(a, amount) => StakeTokens(v, r, a, amount)
    case Request(a, amount, now) => RequestUnstake(v, a, amount, now)
    case Release(a, now) => Withdraw(v, r, a, now)
    case Punish(a, amount, dispute) => Slash(v, r, a, amount, dispute)
    case SetUnbondingPeriod(seconds) => Some(v.(unbonding := seconds))
    case OutsideTransfer(from, to, amount) =>
      match Transfer(v.tokens, from, to, amount)
      case None => None
      case Some(tokens) => Some(v.(tokens := tokens))
  }

  /** What a committed step did to the contract's holdings. */
  datatype Effect =
    | Deposited(a: Address, n: int)
    | Withdrawn(a: Address, n: int)
    | Seized(a: Address, n: int, dispute: nat)
    | Donated(n: int)
    | Quiet

  function EffectOf(v: Vault, r: Roles, op: Op): Effect {
    match op
    case Deposit(a, amount) => Deposited(a, amount)
    case Release(a, now) => Withdrawn(a, RipeTotal(v.Queue(a), now))
    case Punish(a, amount, dispute) =>
      if SlashSize(v, a, amount) == 0 then Quiet else Seized(a, SlashSize(v, a, amount), dispute)
    case OutsideTransfer(_, to, amount) => if to == r.self then Donated(amount) else Quiet
    case _ => Quiet
  }

  function Deposits(es: seq<Effect>, a: Address): int {
    if es == [] then 0
    else
      var e := es[|es| - 1];
      Deposits(es[..|es| - 1], a) + if e.Deposited? && e.a == a then e.n else 0
  }

  function Withdrawals(es: seq<Effect>, a: Address): int {
    if es == [] then 0
    else
      var e := es[|es| - 1];
      Withdrawals(es[..|es| - 1], a) + if e.Withdrawn? && e.a == a then e.n else 0
  }

  function Seizures(es: seq<Effect>, a: Address): int {
    if es == [] then 0
    else
      var e := es[|es| - 1];
      Seizures(es[..|es| - 1], a) + if e.Seized? && e.a == a then e.n else 0
  }

  function Donations(es: seq<Effect>): int {
    if es == [] then 0
    else
      var e := es[|es| - 1];
      Donations(es[..|es| - 1]) + if e.Donated? then e.n else 0
  }

  datatype Run = Run(vault: Vault, effects: seq<Effect>)

  function Next(run: Run, r: Roles, op: Op): Run {
    match Apply(run.vault, r, op)
    case None => run
    case Some(v) => Run(v, run.effects + [EffectOf(run.vault, r, op)])
  }

  function After(start: Vault, r: Roles, ops: seq<Op>): Run {
    if ops == [] then Run(start, []) else Next(After(start, r, ops[..|ops| - 1]), r, ops[|ops| - 1])
  }

  function LastPeriod(start: nat, ops: seq<Op>): nat {
    if ops == [] then start
    else if ops[|ops| - 1].SetUnbondingPeriod? then ops[|ops| - 1].seconds
    else LastPeriod(start, ops[..|ops| - 1])
  }

  /** The unbonding period in force is the one set last. */
  lemma {:induction false} PeriodIsLastSet(start: Vault, r: Roles, ops: seq<Op>)
    ensures After(start, r, ops).vault.unbonding == LastPeriod(start.unbonding, ops)
  {
    if ops != [] {
      PeriodIsLastSet(start, r, ops[..|ops| - 1]);
    }
  }

  /** A freshly initialized contract over any token balances. */
  function Fresh(tokens: Balances, unbonding: nat): Vault {
    Vault(map[], map[], {}, unbonding, tokens)
  }

  ghost function Amounts(v: Vault): map<Address, int> {
    map a | a in v.stakes :: v.stakes[a].amount
  }

  /** Per attestor: everything ever deposited is still staked, was paid back, or was seized. */
  ghost predicate AccountBalanced(run: Run, a: Address) {
    Deposits(run.effects, a) == run.vault.AmountOf(a) + Withdrawals(run.effects, a) + Seizures(run.effects, a)
  }

  ghost predicate PunishedOnce(run: Run) {
    && (forall i :: 0 <= i < |run.effects| && run.effects[i].Seized? ==> run.effects[i].dispute in run.vault.slashed)
    && (forall i, j :: 0 <= i < j < |run.effects| && run.effects[i].Seized? && run.effects[j].Seized?
                       ==> run.effects[i].dispute != run.effects[j].dispute)
  }

  ghost predicate RunInv(run: Run, r: Roles, gift: int) {
    && VaultOk(run.vault)
    && (forall a :: AccountBalanced(run, a))
    && BalanceOf(run.vault.tokens, r.self) == MapSum(Amounts(run.vault)) + Donations(run.effects) + gift
    && PunishedOnce(run)
  }

  lemma ApplyKeepsOk(v: Vault, r: Roles, op: Op)
    requires VaultOk(v) && Apply(v, r, op).Some?
    ensures VaultOk(Apply(v, r, op).value)
  {
    match op
    case Deposit(a, amount) =>
      var next := Apply(v, r, op).value;
      forall x | x in next.stakes ensures AccountOk(next.stakes[x], next.Queue(x)) {
        if x in v.stakes {
          assert AccountOk(v.stakes[x], v.Queue(x));
        }
      }
    case Request(a, amount, now) => RequestKeepsOk(v, a, amount, now);
    case Release(a, now) => WithdrawKeepsOk(v, r, a, now);
    case Punish(a, amount, dispute) => SlashKeepsOk(v, r, a, amount, dispute);
    case SetUnbondingPeriod(_) => SameAccountsStayOk(v, Apply(v, r, op).value);
    case OutsideTransfer(_, _, _) => SameAccountsStayOk(v, Apply(v, r, op).value);
  }

  lemma SameAccountsStayOk(v: Vault, next: Vault)
    requires VaultOk(v) && next.stakes == v.stakes && next.pending == v.pending
    ensures VaultOk(next)
  {
    assert forall a :: next.Queue(a) == v.Queue(a);
  }

  /** The change a committed step makes to one attestor's stake. */
  function Delta(e: Effect, a: Address): int {
    match e
    case Deposited(x, n) => if x == a then n else 0
    case Withdrawn(x, n) => if x == a then -n else 0
    case Seized(x, n, _) => if x == a then -n else 0
    case _ => 0
  }

  lemma StakeChange(v: Vault, r: Roles, op: Op, a: Address)
    requires Apply(v, r, op).Some?
    ensures Apply(v, r, op).value.AmountOf(a) == v.AmountOf(a) + Delta(EffectOf(v, r, op), a)
  {
  }

  /** The contract's own token balance moves exactly with the stakes, plus donations. */
  lemma HoldingsChange(v: Vault, r: Roles, op: Op)
    requires Apply(v, r, op).Some? && op.Authorized(r.self) && r.Valid()
    ensures
      var next, e := Apply(v, r, op).value, EffectOf(v, r, op);
      BalanceOf(next.tokens, r.self) - BalanceOf(v.tokens, r.self)
        == MapSum(Amounts(next)) - MapSum(Amounts(v)) + if e.Donated? then e.n else 0
  {
    var next, e := Apply(v, r, op).value, EffectOf(v, r, op);
    if op.Deposit? || op.Request? || op.Release? || op.Punish? {
      StakeChange(v, r, op, op.a);
      if next == v {
      } else {
        MapSumUpdate(Amounts(v), op.a, next.AmountOf(op.a));
        assert Amounts(next) == Amounts(v)[op.a := next.AmountOf(op.a)];
      }
    } else {
      assert Amounts(next) == Amounts(v);
    }
  }

  lemma TotalsAppend(es: seq<Effect>, e: Effect, a: Address)
    ensures Deposits(es + [e], a) - Withdrawals(es + [e], a) - Seizures(es + [e], a)
         == Deposits(es, a) - Withdrawals(es, a) - Seizures(es, a) + Delta(e, a)
    ensures Donations(es + [e]) == Donations(es) + if e.Donated? then e.n else 0
  {
    assert (es + [e])[..|es|] == es;
  }

  lemma PunishmentStaysUnique(run: Run, r: Roles, op: Op)
    requires PunishedOnce(run)
    ensures PunishedOnce(Next(run, r, op))
  {
    var next := Next(run, r, op);
    if Apply(run.vault, r, op).Some? {
      assert run.vault.slashed <= next.vault.slashed;
      assert forall i :: 0 <= i < |run.effects| ==> next.effects[i] == run.effects[i];
    }
  }

  lemma NextKeepsInv(run: Run, r: Roles, gift: int, op: Op)
    requires RunInv(run, r, gift) && op.Authorized(r.self) && r.Valid()
    ensures RunInv(Next(run, r, op), r, gift)
  {
    PunishmentStaysUnique(run, r, op);
    if Apply(run.vault, r, op).Some? {
      var e := EffectOf(run.vault, r, op);
      ApplyKeepsOk(run.vault, r, op);
      HoldingsChange(run.vault, r, op);
      TotalsAppend(run.effects, e, r.self);
      forall a ensures AccountBalanced(Next(run, r, op), a) {
        assert AccountBalanced(run, a);
        StakeChange(run.vault, r, op, a);
        TotalsAppend(run.effects, e, a);
      }
    }
  }

  ghost predicate AllAuthorized(ops: seq<Op>, self: Address) {
    forall i :: 0 <= i < |ops| ==> ops[i].Authorized(self)
  }

  /** Every run of the contract: queues sum to `locked`, `locked` stays within `amount`, each
      attestor's books balance, the contract holds exactly the stakes plus what was donated,
      and no dispute id is punished twice. */
  lemma {:induction false} EveryRunIsSolvent(tokens: Balances, unbonding: nat, r: Roles, ops: seq<Op>)
    requires r.Valid() && AllAuthorized(ops, r.self)
    ensures RunInv(After(Fresh(tokens, unbonding), r, ops), r, BalanceOf(tokens, r.self))
  {
    if ops == [] {
      assert Amounts(Fresh(tokens, unbonding)) == map[];
    } else {
      EveryRunIsSolvent(tokens, unbonding, r, ops[..|ops| - 1]);
      NextKeepsInv(After(Fresh(tokens, unbonding), r, ops[..|ops| - 1]), r, BalanceOf(tokens, r.self), ops[|ops| - 1]);
    }
  }

  /* ---------- Nothing leaves before its time ---------- */

  /** No queued request unlocks before `at`. */
  ghost predicate WaitsUntil(q: seq<Pending>, at: nat) {
    forall i :: 0 <= i < |q| ==> q[i].unlockAt >= at
  }

  lemma {:induction false} NothingRipeYet(q: seq<Pending>, at: nat, t: nat)
    requires WaitsUntil(q, at) && t < at
    ensures RipeTotal(q, t) == 0
  {
    if q != [] {
      NothingRipeYet(q[..|q| - 1], at, t);
    }
  }

  /** An operation that is no early request of `a` and does not shorten the period below `u`. */
  predicate Patient(op: Op, a: Address, from: nat, u: nat) {
    && (op.Request? && op.a == a ==> op.now >= from)
    && (op.SetUnbondingPeriod? ==> op.seconds >= u)
  }

  lemma RequestKeepsWaiting(v: Vault, a: Address, amount: int, now: nat, next: Vault, at: nat)
    requires RequestUnstake(v, a, amount, now) == Some(next)
    requires WaitsUntil(v.Queue(a), at) && at <= now + v.unbonding && at <= U64_MAX
    ensures WaitsUntil(next.Queue(a), at)
  {
    RequestWaits(v, a, amount, now, next);
    assert forall i :: 0 <= i < |v.Queue(a)| ==> next.Queue(a)[i] == next.Queue(a)[..|v.Queue(a)|][i];
  }

  lemma ReleaseKeepsWaiting(v: Vault, r: Roles, a: Address, now: nat, next: Vault, at: nat)
    requires VaultOk(v) && Withdraw(v, r, a, now) == Some(next) && WaitsUntil(v.Queue(a), at)
    ensures WaitsUntil(next.Queue(a), at)
  {
    assert AccountOk(v.stakes[a], v.Queue(a));
    MaturedIsPrefix(v.Queue(a), now);
    assert next.Queue(a) == Unripe(v.Queue(a), now);
  }

  lemma SlashKeepsWaiting(v: Vault, r: Roles, a: Address, amount: int, dispute: nat, next: Vault, at: nat)
    requires VaultOk(v) && Slash(v, r, a, amount, dispute) == Some(next) && WaitsUntil(v.Queue(a), at)
    ensures WaitsUntil(next.Queue(a), at)
  {
    assert AccountOk(v.stakes[a], v.Queue(a));
    if next != v && Sum(v.Queue(a)) > next.stakes[a].locked {
      CutLowers(v.Queue(a), Sum(v.Queue(a)) - next.stakes[a].locked);
    }
  }

  lemma StepKeepsWaiting(v: Vault, r: Roles, op: Op, next: Vault, a: Address, from: nat, u: nat)
    requires VaultOk(v) && Apply(v, r, op) == Some(next) && Patient(op, a, from, u)
    requires WaitsUntil(v.Queue(a), from + u) && u <= v.unbonding && from + u <= U64_MAX
    ensures WaitsUntil(next.Queue(a), from + u) && u <= next.unbonding
  {
    if op.Request? && op.a == a {
      RequestKeepsWaiting(v, a, op.amount, op.now, next, from + u);
    } else if op.Release? && op.a == a {
      ReleaseKeepsWaiting(v, r, a, op.now, next, from + u);
    } else if op.Punish? && op.a == a {
      SlashKeepsWaiting(v, r, a, op.amount, op.dispute, next, from + u);
    } else {
      assert next.Queue(a) == v.Queue(a);
    }
  }

  lemma {:induction false} QueueWaits(start: Vault, r: Roles, ops: seq<Op>, a: Address, from: nat, u: nat)
    requires VaultOk(start) && start.Queue(a) == [] && u <= start.unbonding && from + u <= U64_MAX
    requires forall i :: 0 <= i < |ops| ==> Patient(ops[i], a, from, u)
    ensures
      var v := After(start, r, ops).vault;
      VaultOk(v) && WaitsUntil(v.Queue(a), from + u) && u <= v.unbonding
  {
    if ops != [] {
      var before, op := After(start, r, ops[..|ops| - 1]).vault, ops[|ops| - 1];
      QueueWaits(start, r, ops[..|ops| - 1], a, from, u);
      if Apply(before, r, op).Some? {
        ApplyKeepsOk(before, r, op);
        StepKeepsWaiting(before, r, op, Apply(before, r, op).value, a, from, u);
      }
    }
  }

  /** An attestor with nothing queued who asks for stake at time `from` or later, under an
      unbonding period of at least `u`, can withdraw nothing before `from + u`: not in any run,
      whatever is deposited, slashed or requested on the way. */
  lemma NothingLeavesEarly(start: Vault, r: Roles, ops: seq<Op>, a: Address, from: nat, u: nat, t: nat)
    requires VaultOk(start) && start.Queue(a) == [] && u <= start.unbonding && from + u <= U64_MAX
    requires forall i :: 0 <= i < |ops| ==> Patient(ops[i], a, from, u)
    requires t < from + u
    ensures Withdraw(After(start, r, ops).vault, r, a, t).None?
  {
    QueueWaits(start, r, ops, a, from, u);
    NothingRipeYet(After(start, r, ops).vault.Queue(a), from + u, t);
  }

  /* ---------- Solvency towards each attestor ---------- */

  lemma {:induction false} MapSumCovers<K>(m: map<K, int>, k: K)
    requires forall x :: x in m ==> m[x] >= 0
    ensures MapSum(m) >= Get(m, k, 0) >= 0
    decreases |m.Keys|
  {
    if m.Keys != {} {
      var x: K :| x in m.Keys && (k in m ==> x == k);
      MapSumTake(m, x);
      assert (m - {x}).Keys == m.Keys - {x};
      MapSumCovers(m - {x}, k);
    }
  }

  lemma OnlyDepositsEnroll(v: Vault, r: Roles, op: Op)
    requires Apply(v, r, op).Some?
    ensures forall x :: x in Apply(v, r, op).value.stakes ==> x in v.stakes || (op.Deposit? && x == op.a)
    ensures EffectOf(v, r, op).Donated? ==> EffectOf(v, r, op).n >= 0
  {
  }

  lemma NextOnlyReceives(run: Run, r: Roles, op: Op)
    requires op.Authorized(r.self) && Donations(run.effects) >= 0 && r.self !in run.vault.stakes
    ensures Donations(Next(run, r, op).effects) >= 0 && r.self !in Next(run, r, op).vault.stakes
  {
    if Apply(run.vault, r, op).Some? {
      OnlyDepositsEnroll(run.vault, r, op);
      TotalsAppend(run.effects, EffectOf(run.vault, r, op), r.self);
    }
  }

  /** Nothing that reaches the contract from outside is negative, and only attestors that
      signed a deposit hold a stake. */
  lemma {:induction false} RunsOnlyReceive(tokens: Balances, unbonding: nat, r: Roles, ops: seq<Op>)
    requires AllAuthorized(ops, r.self)
    ensures Donations(After(Fresh(tokens, unbonding), r, ops).effects) >= 0
    ensures r.self !in After(Fresh(tokens, unbonding), r, ops).vault.stakes
  {
    if ops != [] {
      RunsOnlyReceive(tokens, unbonding, r, ops[..|ops| - 1]);
      NextOnlyReceives(After(Fresh(tokens, unbonding), r, ops[..|ops| - 1]), r, ops[|ops| - 1]);
    }
  }

  /** In every run of a contract that started with no debt, it holds at least what each
      attestor has staked. */
  lemma ReachableVaultCovers(tokens: Balances, unbonding: nat, r: Roles, ops: seq<Op>, a: Address)
    requires r.Valid() && AllAuthorized(ops, r.self) && BalanceOf(tokens, r.self) >= 0
    ensures
      var v := After(Fresh(tokens, unbonding), r, ops).vault;
      VaultOk(v) && r.self !in v.stakes && BalanceOf(v.tokens, r.self) >= v.AmountOf(a)
  {
    EveryRunIsSolvent(tokens, unbonding, r, ops);
    RunsOnlyReceive(tokens, unbonding, r, ops);
    var v := After(Fresh(tokens, unbonding), r, ops).vault;
    forall x | x in Amounts(v) ensures Amounts(v)[x] >= 0 {
      assert AccountOk(v.stakes[x], v.Queue(x));
    }
    MapSumCovers(Amounts(v), a);
  }

  /** Over every run: neither "invariant violated" assertion can fire, and a withdrawal commits
      exactly when something positive has matured and the receiver has room. */
  lemma ReachableWithdrawCommitsIff(tokens: Balances, unbonding: nat, r: Roles, ops: seq<Op>, a: Address, now: nat)
    requires r.Valid() && AllAuthorized(ops, r.self) && BalanceOf(tokens, r.self) >= 0
    ensures
      var v := After(Fresh(tokens, unbonding), r, ops).vault;
      && (a in v.pending ==> a in v.stakes && RipeTotal(v.pending[a], now) <= v.stakes[a].locked <= v.stakes[a].amount)
      && (Withdraw(v, r, a, now).Some? <==>
            && a in v.pending
            && RipeTotal(v.pending[a], now) > 0
            && BalanceOf(v.tokens, a) + RipeTotal(v.pending[a], now) <= I128_MAX)
  {
    ReachableVaultCovers(tokens, unbonding, r, ops, a);
    var v := After(Fresh(tokens, unbonding), r, ops).vault;
    if a in v.pending {
      assert a in v.stakes;
      WithdrawCommitsIff(v, r, a, now);
    }
  }

  /* ---------- A queue emptied by slashing ---------- */

  /** Ten requests, all cut to zero: the queue is full and nothing in it can be paid out. */
  ghost predicate Clogged(v: Vault, a: Address) {
    && |v.Queue(a)| == MAX_PENDING
    && forall i :: 0 <= i < MAX_PENDING ==> v.Queue(a)[i].amount == 0
  }

  lemma {:induction false} AllZero(q: seq<Pending>, now: nat)
    requires forall i :: 0 <= i < |q| ==> q[i].amount == 0
    ensures Sum(q) == 0 && RipeTotal(q, now) == 0
  {
    if q != [] {
      AllZero(q[..|q| - 1], now);
    }
  }

  /** Slashing a whole stake whose queue is full clogs it. */
  lemma {:induction false} SlashingEverythingClogs(v: Vault, r: Roles, a: Address, amount: int, dispute: nat)
    requires VaultOk(v) && a in v.stakes && |v.Queue(a)| == MAX_PENDING && v.stakes[a].amount > 0
    requires Slash(v, r, a, amount, dispute).Some? && amount >= v.stakes[a].amount
    ensures Clogged(Slash(v, r, a, amount, dispute).value, a)
  {
    assert AccountOk(v.stakes[a], v.Queue(a));
    var q, next := v.Queue(a), Slash(v, r, a, amount, dispute).value;
    assert next.stakes[a] == Stake(0, 0) && next.Queue(a) == SlashedQueue(q, 0);
    SlashedQueueKeepsOrder(q, 0);
    SlashedQueueKeepsLength(q, 0);
    ZeroSumMeansAllZero(SlashedQueue(q, 0));
  }

  lemma SlashedQueueKeepsLength(q: seq<Pending>, locked: int)
    requires NonNegative(q)
    ensures |SlashedQueue(q, locked)| == |q|
  {
    if Sum(q) > locked {
      CutLowers(q, Sum(q) - locked);
    }
  }

  lemma {:induction false} ZeroSumMeansAllZero(q: seq<Pending>)
    requires NonNegative(q) && Sum(q) == 0
    ensures forall i :: 0 <= i < |q| ==> q[i].amount == 0
  {
    if q != [] {
      SumNonNegative(q[..|q| - 1]);
      ZeroSumMeansAllZero(q[..|q| - 1]);
    }
  }

  /** No step ever unclogs such a queue, and the attestor's own requests and withdrawals abort
      at any ledger time: new deposits of that attestor can no longer be taken out. */
  lemma CloggedForever(v: Vault, r: Roles, a: Address, op: Op)
    requires Clogged(v, a) && VaultOk(v)
    ensures Apply(v, r, op).Some? ==> Clogged(Apply(v, r, op).value, a)
    ensures (op.Request? || op.Release?) && op.a == a ==> Apply(v, r, op).None?
  {
    AllZero(v.Queue(a), if op.Release? then op.now else 0);
    if op.Punish? && op.a == a && Apply(v, r, op).Some? {
      assert AccountOk(v.stakes[a], v.Queue(a));
    }
  }

  /** Whatever amount and whatever ledger time, the attestor can neither request nor withdraw. */
  ghost predicate Stuck(v: Vault, r: Roles, a: Address) {
    && (forall amount: int, now: nat :: now <= U64_MAX ==> RequestUnstake(v, a, amount, now).None?)
    && (forall now: nat :: now <= U64_MAX ==> Withdraw(v, r, a, now).None?)
  }

  /** At the end of the ledger clock everything queued has matured. */
  lemma AllRipeInTheEnd(q: seq<Pending>)
    requires QueueOk(q)
    ensures RipeTotal(q, U64_MAX) == Sum(q)
  {
    NothingUnripe(q, U64_MAX);
    RipeAndUnripeSplitTheSum(q, U64_MAX);
  }

  /** Exactly which attestors with a stake are stuck: those whose queue is full of zeros. */
  lemma StuckIffClogged(v: Vault, r: Roles, a: Address)
    requires VaultOk(v) && a != r.self && v.AmountOf(a) > 0
    requires BalanceOf(v.tokens, r.self) >= v.AmountOf(a) && BalanceOf(v.tokens, a) + v.AmountOf(a) <= I128_MAX
    ensures Stuck(v, r, a) <==> Clogged(v, a)
  {
    var q := v.Queue(a);
    assert AccountOk(v.stakes[a], q);
    if Clogged(v, a) {
      forall now: nat ensures Withdraw(v, r, a, now).None? {
        AllZero(q, now);
      }
    } else {
      AllRipeInTheEnd(q);
      WithdrawCommitsIff(v, r, a, U64_MAX);
      SumNonNegative(q);
      if Sum(q) > 0 {
        assert Withdraw(v, r, a, U64_MAX).Some?;
      } else {
        ZeroSumMeansAllZero(q);
        assert RequestUnstake(v, a, 1, 0).Some?;
      }
    }
  }

  /** Over every run: an attestor with a stake, and room to receive it, is stuck if and only if
      its queue is clogged. */
  lemma ReachableStuckIffClogged(tokens: Balances, unbonding: nat, r: Roles, ops: seq<Op>, a: Address)
    requires r.Valid() && AllAuthorized(ops, r.self) && BalanceOf(tokens, r.self) >= 0
    requires
      var v := After(Fresh(tokens, unbonding), r, ops).vault;
      v.AmountOf(a) > 0 && BalanceOf(v.tokens, a) + v.AmountOf(a) <= I128_MAX
    ensures
      var v := After(Fresh(tokens, unbonding), r, ops).vault;
      Stuck(v, r, a) <==> Clogged(v, a)
  {
    ReachableVaultCovers(tokens, unbonding, r, ops, a);
    StuckIffClogged(After(Fresh(tokens, unbonding), r, ops).vault, r, a);
  }

  /** Once clogged, an attestor is stuck at every later point of every run. */
  lemma {:induction false} BlockedForGood(tokens: Balances, unbonding: nat, r: Roles, ops: seq<Op>, more: seq<Op>,
                                          a: Address)
    requires r.Valid() && AllAuthorized(ops, r.self) && AllAuthorized(more, r.self)
    requires Clogged(After(Fresh(tokens, unbonding), r, ops).vault, a)
    ensures Clogged(After(Fresh(tokens, unbonding), r, ops + more).vault, a)
    ensures Stuck(After(Fresh(tokens, unbonding), r, ops + more).vault, r, a)
  {
    if more == [] {
      assert ops + more == ops;
    } else {
      var front, op := more[..|more| - 1], more[|more| - 1];
      assert (ops + more)[..|ops + more| - 1] == ops + front;
      BlockedForGood(tokens, unbonding, r, ops, front, a);
      EveryRunIsSolvent(tokens, unbonding, r, ops + front);
      CloggedForever(After(Fresh(tokens, unbonding), r, ops + front).vault, r, a, op);
    }
    CloggedMeansStuck(After(Fresh(tokens, unbonding), r, ops + more).vault, r, a);
  }

  lemma CloggedMeansStuck(v: Vault, r: Roles, a: Address)
    requires Clogged(v, a)
    ensures Stuck(v, r, a)
  {
    forall now: nat ensures Withdraw(v, r, a, now).None? {
      AllZero(v.Queue(a), now);
    }
  }

  /** `n` requests of one unit each. */
  function Requests(a: Address, n: nat): seq<Op> {
    if n == 0 then [] else Requests(a, n - 1) + [Request(a, 1, 0)]
  }

  lemma AfterOneMore(start: Vault, r: Roles, ops: seq<Op>, op: Op)
    ensures After(start, r, ops + [op]) == Next(After(start, r, ops), r, op)
  {
    assert (ops + [op])[..|ops|] == ops;
  }

  lemma OneMoreRequest(v: Vault, a: Address, n: nat)
    requires n < MAX_PENDING && a in v.stakes && v.stakes[a] == Stake(10, n) && |v.Queue(a)| == n
    ensures
      var next := RequestUnstake(v, a, 1, 0);
      && next.Some?
      && a in next.value.stakes && next.value.stakes[a] == Stake(10, n + 1) && |next.value.Queue(a)| == n + 1
      && next.value.tokens == v.tokens && next.value.slashed == v.slashed
  {
  }

  /** `w` is `v` after `n` one-unit requests out of a stake of ten. */
  ghost predicate Filled(v: Vault, w: Vault, a: Address, n: nat) {
    && a in w.stakes && w.stakes[a] == Stake(10, n) && |w.Queue(a)| == n
    && w.tokens == v.tokens && w.slashed == v.slashed
  }

  lemma RequestFillsOneMore(v: Vault, start: Vault, r: Roles, ops: seq<Op>, a: Address, n: nat)
    requires n < MAX_PENDING && Filled(v, After(start, r, ops).vault, a, n)
    ensures Filled(v, After(start, r, ops + [Request(a, 1, 0)]).vault, a, n + 1)
  {
    OneMoreRequest(After(start, r, ops).vault, a, n);
    AfterOneMore(start, r, ops, Request(a, 1, 0));
  }

  lemma {:induction false} RequestsFillTheQueue(v: Vault, start: Vault, r: Roles, ops: seq<Op>, a: Address, n: nat)
    requires n <= MAX_PENDING && Filled(v, After(start, r, ops).vault, a, 0)
    ensures Filled(v, After(start, r, ops + Requests(a, n)).vault, a, n)
  {
    if n == 0 {
      assert ops + [] == ops;
    } else {
      RequestsFillTheQueue(v, start, r, ops, a, n - 1);
      assert ops + Requests(a, n) == (ops + Requests(a, n - 1)) + [Request(a, 1, 0)];
      RequestFillsOneMore(v, start, r, ops + Requests(a, n - 1), a, n - 1);
    }
  }

  lemma {:induction false} RequestsAreAuthorized(a: Address, n: nat, self: Address)
    ensures AllAuthorized(Requests(a, n), self)
  {
    if n > 0 {
      RequestsAreAuthorized(a, n - 1, self);
    }
  }

  /** Slashing a full queue and depositing again, when the tokens are there. */
  lemma SlashThenDeposit(v: Vault, r: Roles, a: Address, dispute: nat, slashed: Vault)
    requires VaultOk(v) && r.Valid() && a != r.self && dispute !in v.slashed
    requires a in v.stakes && v.stakes[a] == Stake(10, 10) && |v.Queue(a)| == MAX_PENDING
    requires Slash(v, r, a, 10, dispute) == Some(slashed)
    requires BalanceOf(slashed.tokens, a) >= 1 && BalanceOf(slashed.tokens, r.self) + 1 <= I128_MAX
    ensures StakeTokens(slashed, r, a, 1).Some?
    ensures
      var again := StakeTokens(slashed, r, a, 1).value;
      Clogged(again, a) && again.AmountOf(a) == 1
  {
    SlashingEverythingClogs(v, r, a, 10, dispute);
    SlashEffect(v, r, a, 10, dispute, slashed);
  }

  lemma SlashMovesTokens(v: Vault, r: Roles, a: Address, dispute: nat)
    requires a in v.stakes && v.stakes[a].amount == 10 && r.Valid() && dispute !in v.slashed
    requires BalanceOf(v.tokens, r.self) >= 10 && BalanceOf(v.tokens, r.treasury) + 10 <= I128_MAX
    ensures Slash(v, r, a, 10, dispute).Some?
    ensures forall x :: BalanceOf(Slash(v, r, a, 10, dispute).value.tokens, x) ==
              BalanceOf(v.tokens, x) + Moved(x, r.self, r.treasury, 10)
  {
  }

  lemma FirstDeposit(tokens: Balances, unbonding: nat, r: Roles, a: Address)
    requires a != r.self && BalanceOf(tokens, a) >= 10 && BalanceOf(tokens, r.self) + 10 <= I128_MAX
    ensures
      var run := After(Fresh(tokens, unbonding), r, [Deposit(a, 10)]);
      && a in run.vault.stakes && run.vault.stakes[a] == Stake(10, 0)
      && run.vault.Queue(a) == [] && run.vault.slashed == {}
      && (forall x :: BalanceOf(run.vault.tokens, x) == BalanceOf(tokens, x) + Moved(x, a, r.self, 10))
  {
    AfterOneMore(Fresh(tokens, unbonding), r, [], Deposit(a, 10));
    assert [] + [Deposit(a, 10)] == [Deposit(a, 10)];
  }

  /** The run that gets there, for anyone who can pay for it: deposit ten, request one unit ten
      times, be slashed for everything, and deposit again. The last deposit is lost. */
  lemma CloggingRun(tokens: Balances, unbonding: nat, r: Roles, a: Address, dispute: nat) returns (ops: seq<Op>)
    requires r.Valid() && a != r.self && BalanceOf(tokens, a) >= 11 && BalanceOf(tokens, r.self) >= 0
    requires BalanceOf(tokens, r.self) + 11 <= I128_MAX && BalanceOf(tokens, r.treasury) + 10 <= I128_MAX
    ensures AllAuthorized(ops, r.self)
    ensures
      var v := After(Fresh(tokens, unbonding), r, ops).vault;
      Clogged(v, a) && v.AmountOf(a) == 1 && Stuck(v, r, a)
  {
    var start, deposit := Fresh(tokens, unbonding), [Deposit(a, 10)];
    FirstDeposit(tokens, unbonding, r, a);
    RequestsFillTheQueue(After(start, r, deposit).vault, start, r, deposit, a, 10);
    RequestsAreAuthorized(a, 10, r.self);
    var filled := deposit + Requests(a, 10);
    EveryRunIsSolvent(tokens, unbonding, r, filled);
    var v := After(start, r, filled).vault;
    SlashMovesTokens(v, r, a, dispute);
    SlashThenDeposit(v, r, a, dispute, Slash(v, r, a, 10, dispute).value);
    ops := EndWith(start, r, filled, a, dispute);
    CloggedMeansStuck(After(start, r, ops).vault, r, a);
  }

  lemma EndWith(start: Vault, r: Roles, filled: seq<Op>, a: Address, dispute: nat) returns (ops: seq<Op>)
    requires AllAuthorized(filled, r.self) && a != r.self
    requires Slash(After(start, r, filled).vault, r, a, 10, dispute).Some?
    requires StakeTokens(Slash(After(start, r, filled).vault, r, a, 10, dispute).value, r, a, 1).Some?
    ensures AllAuthorized(ops, r.self)
    ensures
      var slashed := Slash(After(start, r, filled).vault, r, a, 10, dispute).value;
      After(start, r, ops).vault == StakeTokens(slashed, r, a, 1).value
  {
    AfterOneMore(start, r, filled, Punish(a, 10, dispute));
    AfterOneMore(start, r, filled + [Punish(a, 10, dispute)], Deposit(a, 1));
    ops := filled + [Punish(a, 10, dispute)] + [Deposit(a, 1)];
  }

  /* ---------- The contract's storage and entry points ---------- */

  class StakingContract {
    const roles: Roles
    var stakes: map<Address, Stake>
    var pending: map<Address, seq<Pending>>
    var slashed: set<nat>
    var unbonding: nat
    var tokens: Balances

    function Model(): Vault
      reads this
    {
      Vault(stakes, pending, slashed, unbonding, tokens)
    }

    constructor (roles: Roles, tokens: Balances, unbonding: nat)
      ensures this.roles == roles && Model() == Fresh(tokens, unbonding)
    {
      this.roles, this.tokens, this.unbonding := roles, tokens, unbonding;
      stakes, pending, slashed := map[], map[], {};
    }

    method StakeFunds(a: Address, amount: int) returns (ok: bool)
      modifies this
      ensures Tx(ok, StakeTokens(old(Model()), roles, a, amount), old(Model()), Model())
    {
      var stake := Get(stakes, a, Stake(0, 0));
      if amount <= 0 || stake.amount + amount > I128_MAX {
        return false;
      }
      var moved := Transfer(tokens, a, roles.self, amount);
      if moved.None? {
        return false;
      }
      stakes := stakes[a := stake.(amount := stake.amount + amount)];
      tokens := moved.value;
      return true;
    }

    method Request(a: Address, amount: int, now: nat) returns (ok: bool)
      modifies this
      ensures Tx(ok, RequestUnstake(old(Model()), a, amount, now), old(Model()), Model())
    {
      var queue := Get(pending, a, []);
      if amount <= 0 || |queue| >= MAX_PENDING || a !in stakes {
        return false;
      }
      var available := stakes[a].amount - stakes[a].locked;
      if available < amount {
        return false;
      }
      var unlockAt := SatAdd(now, unbonding, U64_MAX);
      if queue != [] {
        var newest := queue[|queue| - 1];
        if unlockAt < newest.unlockAt {
          unlockAt := newest.unlockAt;
        }
      }
      stakes := stakes[a := stakes[a].(locked := stakes[a].locked + amount)];
      pending := pending[a := queue + [Pending(amount, unlockAt)]];
      return true;
    }

    /** One pass splits the queue into what is paid now and what stays. */
    method SplitQueue(queue: seq<Pending>, now: nat) returns (total: int, rest: seq<Pending>)
      ensures total == RipeTotal(queue, now)
      ensures rest == Unripe(queue, now)
    {
      total, rest := 0, [];
      for i := 0 to |queue|
        invariant total == RipeTotal(queue[..i], now)
        invariant rest == Unripe(queue[..i], now)
      {
        assert queue[..i + 1][..i] == queue[..i];
        if now >= queue[i].unlockAt {
          total := total + queue[i].amount;
        } else {
          rest := rest + [queue[i]];
        }
      }
      assert queue[..|queue|] == queue;
    }

    method WithdrawUnstaked(a: Address, now: nat) returns (ok: bool)
      modifies this
      ensures Tx(ok, Withdraw(old(Model()), roles, a, now), old(Model()), Model())
    {
      if a !in pending {
        return false;
      }
      var total, rest := SplitQueue(pending[a], now);
      if total <= 0 || a !in stakes || stakes[a].locked < total || stakes[a].amount < total {
        return false;
      }
      var moved := Transfer(tokens, roles.self, a, total);
      if moved.None? {
        return false;
      }
      stakes := stakes[a := Stake(stakes[a].amount - total, stakes[a].locked - total)];
      if rest == [] {
        pending := pending - {a};
      } else {
        pending := pending[a := rest];
      }
      tokens := moved.value;
      return true;
    }

    /** Sums the queue; if that exceeds `locked`, walks it backwards taking the excess. */
    method TrimQueue(queue: seq<Pending>, locked: int) returns (trimmed: seq<Pending>)
      requires NonNegative(queue)
      ensures trimmed == SlashedQueue(queue, locked)
    {
      var total := 0;
      for i := 0 to |queue|
        invariant total == Sum(queue[..i])
      {
        assert queue[..i + 1][..i] == queue[..i];
        total := total + queue[i].amount;
      }
      assert queue[..|queue|] == queue;
      trimmed := queue;
      if total > locked {
        trimmed := TakeFromBack(queue, total - locked);
      }
    }

    method TakeFromBack(queue: seq<Pending>, amount: int) returns (trimmed: seq<Pending>)
      requires NonNegative(queue) && amount >= 0
      ensures trimmed == CutFromBack(queue, amount)
    {
      trimmed := queue;
      var excess, i := amount, |queue|;
      assert queue[..i] == queue;
      while i > 0
        invariant 0 <= i <= |queue| == |trimmed| && excess >= 0
        invariant trimmed[..i] == queue[..i]
        invariant CutFromBack(queue, amount) == CutFromBack(queue[..i], excess) + trimmed[i..]
      {
        i := i - 1;
        assert queue[..i + 1][..i] == queue[..i];
        ghost var last, left := queue[i], excess;
        var p := trimmed[i];
        assert p == trimmed[..i + 1][i] == last;
        if excess > 0 {
          if p.amount <= excess {
            excess := excess - p.amount;
            p := p.(amount := 0);
          } else {
            p := p.(amount := p.amount - excess);
            excess := 0;
          }
        }
        assert CutFromBack(queue[..i + 1], left) == CutFromBack(queue[..i], excess) + [p];
        ghost var newer := trimmed[i + 1..];
        trimmed := trimmed[i := p];
        assert trimmed[i..] == [p] + newer;
      }
    }

    method SlashAttestor(a: Address, amount: int, dispute: nat) returns (ok: bool, applied: bool)
      requires VaultOk(Model())
      modifies this
      ensures Tx(ok, Slash(old(Model()), roles, a, amount, dispute), old(Model()), Model())
      ensures applied == (ok && old(SlashSize(Model(), a, amount)) != 0)
    {
      if amount <= 0 || dispute in slashed || a !in stakes {
        return false, false;
      }
      var stake := stakes[a];
      var cut := Min(amount, stake.amount);
      if cut == 0 {
        return true, false;
      }
      var moved := Transfer(tokens, roles.self, roles.treasury, cut);
      if moved.None? {
        return false, false;
      }
      stake := stake.(amount := stake.amount - cut);
      if stake.locked > stake.amount {
        stake := stake.(locked := stake.amount);
      }
      if a in pending {
        assert AccountOk(stakes[a], Model().Queue(a));
        var trimmed := TrimQueue(pending[a], stake.locked);
        pending := pending[a := trimmed];
      }
      stakes := stakes[a := stake];
      slashed := slashed + {dispute};
      tokens := moved.value;
      return true, true;
    }

    method SetUnbonding(seconds: nat)
      modifies this`unbonding
      ensures Model() == old(Model()).(unbonding := seconds)
    {
      unbonding := seconds;
    }
  }
}
