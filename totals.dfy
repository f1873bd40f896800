/**
 The sum of all balances held in a ledger of `u64` balance accounts, keyed by
 owner, together with the facts about that sum that the transfer proofs use.
 */
module Totals {

  const U64_MAX: int := 0xFFFF_FFFF_FFFF_FFFF

  /** Rust's `u64`: every balance and every transfer amount has this type. */
  newtype u64 = x: int | 0 <= x <= U64_MAX

  /** An owner's public key (32 bytes). */
  type Pubkey = s: seq<bv8> | |s| == 32 witness seq(32, _ => 0)

  /** The sum of every balance in `m`, as an unbounded integer. */
  ghost function Total(m: map<Pubkey, u64>): nat
    decreases |m.Keys|
  {
    if m == map[] then 0
    else
      var k :| k in m.Keys;
      m[k] as nat + Total(m - {k})
  }

  /** Taking any one account out of the ledger takes exactly its balance out of the total. */
  lemma {:induction false} TotalRemove(m: map<Pubkey, u64>, k: Pubkey)
    requires k in m
    ensures Total(m) == m[k] as nat + Total(m - {k})
    decreases |m.Keys|
  {
    var j :| j in m.Keys && Total(m) == m[j] as nat + Total(m - {j});
    if j != k {
      var mj, mk := m - {j}, m - {k};
      assert |mj.Keys| < |m.Keys| by { assert mj.Keys == m.Keys - {j}; }
      assert |mk.Keys| < |m.Keys| by { assert mk.Keys == m.Keys - {k}; }
      TotalRemove(mj, k);
      TotalRemove(mk, j);
      assert mj - {k} == mk - {j};
    }
  }

  /** Overwriting an existing balance changes the total by the difference. */
  lemma TotalUpdate(m: map<Pubkey, u64>, k: Pubkey, v: u64)
    requires k in m
    ensures Total(m[k := v]) + m[k] as nat == Total(m) + v as nat
  {
    TotalRemove(m, k);
    TotalRemove(m[k := v], k);
    assert m[k := v] - {k} == m - {k};
  }

  /** Creating a new account with balance `v` adds `v` to the total. */
  lemma TotalInsert(m: map<Pubkey, u64>, k: Pubkey, v: u64)
    requires k !in m
    ensures Total(m[k := v]) == Total(m) + v as nat
  {
    TotalRemove(m[k := v], k);
    assert m[k := v] - {k} == m;
  }

  /** No single balance exceeds the total. */
  lemma TotalBoundsOne(m: map<Pubkey, u64>, a: Pubkey)
    requires a in m
    ensures m[a] as nat <= Total(m)
  {
    TotalRemove(m, a);
  }

  /** Two distinct balances together do not exceed the total. */
  lemma TotalBoundsTwo(m: map<Pubkey, u64>, a: Pubkey, b: Pubkey)
    requires a in m && b in m && a != b
    ensures m[a] as nat + m[b] as nat <= Total(m)
  {
    TotalRemove(m, a);
    TotalRemove(m - {a}, b);
  }

  /** A ledger whose total is zero holds zero in every account. */
  lemma ZeroTotalAllZero(m: map<Pubkey, u64>)
    requires Total(m) == 0
    ensures forall k :: k in m ==> m[k] == 0
  {
    forall k | k in m ensures m[k] == 0 {
      TotalBoundsOne(m, k);
    }
  }

  /** Conversely, a ledger holding zero everywhere has total zero. */
  lemma {:induction false} AllZeroTotalZero(m: map<Pubkey, u64>)
    requires forall k :: k in m ==> m[k] == 0
    ensures Total(m) == 0
    decreases |m.Keys|
  {
    if m != map[] {
      var k :| k in m;
      TotalRemove(m, k);
      var rest := m - {k};
      assert |rest.Keys| < |m.Keys| by { assert rest.Keys == m.Keys - {k}; }
      AllZeroTotalZero(rest);
    }
  }
}
