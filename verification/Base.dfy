/** Vocabulary shared by every contract model: identities, machine-integer bounds,
    transactions that either commit or abort, and the token ledger.
 */
module Base {

  datatype Option<+T> = None | Some(value: T) {
    function GetOr(default: T): T {
      match this
      case Some(v) => v
      case None => default
    }
  }

  /** An account or contract address; only equality matters. */
  datatype Address = Address(id: nat)

  /** A 32-byte digest; only equality matters. `ZERO_HASH` is the all-zero digest. */
  datatype Hash = Hash(bytes: nat)

  const ZERO_HASH := Hash(0)

  /** Period identifiers are strings; `|p|` is their byte length. */
  type Period = string

  /** The (business, period) pair that keys almost every storage entry. */
  datatype Key = Key(business: Address, period: Period)

  const U32_MAX: nat := 0xFFFF_FFFF
  const U64_MAX: nat := 0xFFFF_FFFF_FFFF_FFFF
  const I128_MAX: int := 0x7FFF_FFFF_FFFF_FFFF_FFFF_FFFF_FFFF_FFFF
  const I128_MIN: int := -0x8000_0000_0000_0000_0000_0000_0000_0000

  function Max(a: int, b: int): int {
    if a >= b then a else b
  }

  function Min(a: int, b: int): int {
    if a <= b then a else b
  }

  /** Unsigned subtraction that stops at zero. */
  function SatSub(a: nat, b: nat): nat {
    if a >= b then a - b else 0
  }

  /** Unsigned addition that stops at `limit`. */
  function SatAdd(a: nat, b: nat, limit: nat): nat {
    if a + b <= limit then a + b else limit
  }

  /** Signed 128-bit addition that stops at either end of the range. */
  function SatAddI128(a: int, b: int): int {
    if a + b > I128_MAX then I128_MAX
    else if a + b < I128_MIN then I128_MIN
    else a + b
  }

  /** Which is the sum, kept within the range. */
  lemma SatAddI128IsClamped(a: int, b: int)
    ensures SatAddI128(a, b) == Max(I128_MIN, Min(a + b, I128_MAX))
  {
  }

  predicate FitsI128(x: int) {
    I128_MIN <= x <= I128_MAX
  }

  /** Signed division as the contract language does it: towards zero. */
  function TruncDiv(a: int, b: int): int
    requires b > 0
  {
    if a >= 0 then a / b else -((-a) / b)
  }

  function Get<K, V>(m: map<K, V>, k: K, default: V): V {
    if k in m then m[k] else default
  }

  function Lookup<K, V>(m: map<K, V>, k: K): Option<V> {
    if k in m then Some(m[k]) else None
  }

  /** How a transaction relates to its specification: it commits exactly when the
      specification has a next state, and an abort leaves the storage as it was. */
  ghost predicate Tx<S>(ok: bool, next: Option<S>, before: S, after: S) {
    && ok == next.Some?
    && after == next.GetOr(before)
  }

  /* ---------- Sequences without repetition ---------- */

  ghost predicate Distinct<T>(xs: seq<T>) {
    forall i, j :: 0 <= i < j < |xs| ==> xs[i] != xs[j]
  }

  ghost predicate Increasing(xs: seq<nat>) {
    forall i, j :: 0 <= i < j < |xs| ==> xs[i] < xs[j]
  }

  function Elements<T>(xs: seq<T>): set<T> {
    set x | x in xs
  }

  lemma {:induction false} DistinctSize<T>(xs: seq<T>)
    requires Distinct(xs)
    ensures |Elements(xs)| == |xs|
  {
    if xs != [] {
      var front, last := xs[..|xs| - 1], xs[|xs| - 1];
      DistinctSize(front);
      assert Elements(xs) == Elements(front) + {last};
      assert last !in front;
    }
  }

  lemma SameElementsSameSize<T>(xs: seq<T>, ys: seq<T>)
    requires Distinct(xs) && Distinct(ys)
    requires forall x :: x in xs <==> x in ys
    ensures |xs| == |ys|
  {
    DistinctSize(xs);
    DistinctSize(ys);
    assert Elements(xs) == Elements(ys);
  }

  lemma {:induction false} SubsetSize<T>(a: set<T>, b: set<T>)
    requires a <= b
    ensures |a| <= |b|
  {
    if a != {} {
      var x :| x in a;
      SubsetSize(a - {x}, b - {x});
    }
  }

  /* ---------- Sums over finite maps ---------- */

  ghost function MapSum<K>(m: map<K, int>): int
    decreases |m.Keys|
  {
    if m.Keys == {} then 0
    else
      var k :| k in m.Keys;
      var rest := m - {k};
      assert |rest.Keys| < |m.Keys| by { assert rest.Keys == m.Keys - {k}; }
      m[k] + MapSum(rest)
  }

  /** The sum does not depend on which key is taken out first. */
  lemma {:induction false} MapSumTake<K>(m: map<K, int>, k: K)
    requires k in m
    ensures MapSum(m) == m[k] + MapSum(m - {k})
    decreases |m.Keys|
  {
    var first :| first in m.Keys && MapSum(m) == m[first] + MapSum(m - {first});
    if first != k {
      assert (m - {first}).Keys == m.Keys - {first};
      assert (m - {k}).Keys == m.Keys - {k};
      MapSumTake(m - {first}, k);
      MapSumTake(m - {k}, first);
      assert m - {first} - {k} == m - {k} - {first};
    }
  }

  lemma MapSumUpdate<K>(m: map<K, int>, k: K, v: int)
    ensures MapSum(m[k := v]) == MapSum(m) - Get(m, k, 0) + v
  {
    MapSumTake(m[k := v], k);
    assert m[k := v] - {k} == m - {k};
    if k in m {
      MapSumTake(m, k);
    } else {
      assert m - {k} == m;
    }
  }

  /* ---------- The token ---------- */

  /** Token balances; an account that is not listed holds nothing. */
  type Balances = map<Address, int>

  function BalanceOf(b: Balances, a: Address): int {
    Get(b, a, 0)
  }

  /** What a transfer does to the balance of `a`. */
  function Moved(a: Address, from: Address, to: Address, amount: int): int {
    (if a == to then amount else 0) - (if a == from then amount else 0)
  }

  /** A standard token transfer: aborts on a negative amount, on a balance that is too
      small, and on a receiving balance that would leave the 128-bit range. */
  function Transfer(b: Balances, from: Address, to: Address, amount: int): (r: Option<Balances>)
    ensures r.Some? <==> 0 <= amount <= BalanceOf(b, from)
                         && (from == to || BalanceOf(b, to) + amount <= I128_MAX)
    ensures r.Some? ==> (forall a :: BalanceOf(r.value, a) == BalanceOf(b, a) + Moved(a, from, to, amount))
  {
    if amount < 0 || BalanceOf(b, from) < amount then None
    else
      var debited := b[from := BalanceOf(b, from) - amount];
      if BalanceOf(debited, to) + amount > I128_MAX && from != to then None
      else Some(debited[to := BalanceOf(debited, to) + amount])
  }

  /** No transfer creates or destroys tokens. */
  lemma TransferConserves(b: Balances, from: Address, to: Address, amount: int)
    requires Transfer(b, from, to, amount).Some?
    ensures MapSum(Transfer(b, from, to, amount).value) == MapSum(b)
  {
    var debited := b[from := BalanceOf(b, from) - amount];
    MapSumUpdate(b, from, BalanceOf(b, from) - amount);
    MapSumUpdate(debited, to, BalanceOf(debited, to) + amount);
  }
}
