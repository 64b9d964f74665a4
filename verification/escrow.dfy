/**
 * Lamport balances of the accounts a transaction touches, and the one way the
 * race program moves them: debit one account, credit another by the same amount.
 *
 * Balances are unbounded naturals: the ledger's total supply fits in a u64,
 * so a credit never overflows in practice.
 */
module Escrow {
  import opened Common
  import opened RaceTypes

  /** Lamports per account; an account absent from the map holds nothing. */
  type Balances = map<Pubkey, nat>

  function BalanceOf(b: Balances, k: Pubkey): nat
  {
    if k in b then b[k] else 0
  }

  /** Sum of all balances. */
  ghost function Total(b: Balances): nat
    decreases |b|
  {
    if b == map[] then 0
    else
      var k :| k in b;
      b[k] + Total(b - {k})
  }

  /** Splitting any one account off the sum. */
  lemma {:induction false} TotalRemove(b: Balances, k: Pubkey)
    requires k in b
    ensures Total(b) == b[k] + Total(b - {k})
    decreases |b|
  {
    var j :| j in b && Total(b) == b[j] + Total(b - {j});
    if j != k {
      var bj := b - {j};
      var bk := b - {k};
      assert |bj| < |b| && |bk| < |b|;
      TotalRemove(bj, k);
      TotalRemove(bk, j);
      assert bj - {k} == bk - {j};
    }
  }

  /** Overwriting one account changes the sum by exactly the difference. */
  lemma TotalUpdate(b: Balances, k: Pubkey, v: nat)
    ensures Total(b[k := v]) + BalanceOf(b, k) == Total(b) + v
  {
    var b' := b[k := v];
    TotalRemove(b', k);
    if k in b {
      TotalRemove(b, k);
      assert b' - {k} == b - {k};
    } else {
      assert b' - {k} == b;
    }
  }

  /**
   * Move `amount` lamports from `src` to `dst`; `None` when `src` holds less
   * than `amount`, in which case nothing moves.
   */
  function Transfer(b: Balances, src: Pubkey, dst: Pubkey, amount: nat): (r: Option<Balances>)
    ensures r.None? <==> BalanceOf(b, src) < amount
    ensures r.Some? && src != dst ==>
      && BalanceOf(r.value, src) + amount == BalanceOf(b, src)
      && BalanceOf(r.value, dst) == BalanceOf(b, dst) + amount
    ensures r.Some? && src == dst ==> BalanceOf(r.value, src) == BalanceOf(b, src)
    ensures r.Some? ==> forall k :: k != src && k != dst ==> BalanceOf(r.value, k) == BalanceOf(b, k)
  {
    if BalanceOf(b, src) < amount then None
    else
      var debited := b[src := BalanceOf(b, src) - amount];
      Some(debited[dst := BalanceOf(debited, dst) + amount])
  }

  /** A transfer neither creates nor destroys lamports. */
  lemma TransferConserves(b: Balances, src: Pubkey, dst: Pubkey, amount: nat)
    requires Transfer(b, src, dst, amount).Some?
    ensures Total(Transfer(b, src, dst, amount).value) == Total(b)
  {
    var debited := b[src := BalanceOf(b, src) - amount];
    TotalUpdate(b, src, BalanceOf(b, src) - amount);
    TotalUpdate(debited, dst, BalanceOf(debited, dst) + amount);
  }
}
