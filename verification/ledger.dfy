/**
 * The ledger store: the authoritative mapping from account to balance.
 * Accounts are created by registration, which is outside this model, so the
 * handlers only ever read and update balances of accounts already present.
 */
module Ledger {

  /** Account identity (the string form of a user's document id). */
  type UserId = string

  /** Current balance of every existing account. */
  type Balances = map<UserId, int>

  /** Sum of the balances of the accounts in `ks`. */
  ghost function Sum(m: Balances, ks: set<UserId>): int
    requires ks <= m.Keys
    decreases ks
  {
    if ks == {} then 0
    else
      var u :| u in ks;
      m[u] + Sum(m, ks - {u})
  }

  /** Sum of all balances: the total amount of money held by the service. */
  ghost function Total(m: Balances): int {
    Sum(m, m.Keys)
  }

  /** No account is in debt. */
  ghost predicate NonNegative(m: Balances) {
    forall u :: u in m ==> m[u] >= 0
  }

  /** The sum does not depend on which account its definition picks first. */
  lemma {:induction false} SumRemove(m: Balances, ks: set<UserId>, u: UserId)
    requires ks <= m.Keys && u in ks
    ensures Sum(m, ks) == m[u] + Sum(m, ks - {u})
    decreases ks
  {
    var v :| v in ks && Sum(m, ks) == m[v] + Sum(m, ks - {v});
    if v != u {
      assert ks - {v} - {u} == ks - {u} - {v};
      SumRemove(m, ks - {v}, u);
      SumRemove(m, ks - {u}, v);
    }
  }

  /** The sum over `ks` only looks at the balances of the accounts in `ks`. */
  lemma {:induction false} SumFrame(m: Balances, m': Balances, ks: set<UserId>)
    requires ks <= m.Keys && ks <= m'.Keys
    requires forall u :: u in ks ==> m[u] == m'[u]
    ensures Sum(m, ks) == Sum(m', ks)
    decreases ks
  {
    if ks != {} {
      var u :| u in ks;
      SumRemove(m, ks, u);
      SumRemove(m', ks, u);
      SumFrame(m, m', ks - {u});
    }
  }

  /** Setting one existing balance to `b` changes the total by the difference. */
  lemma TotalUpdate(m: Balances, u: UserId, b: int)
    requires u in m
    ensures Total(m[u := b]) == Total(m) - m[u] + b
  {
    var m' := m[u := b];
    assert m'.Keys == m.Keys;
    SumRemove(m, m.Keys, u);
    SumRemove(m', m.Keys, u);
    SumFrame(m, m', m.Keys - {u});
  }

  /** Moving `x` from one account to a different one preserves the total. */
  lemma TotalMove(m: Balances, from: UserId, to: UserId, x: int)
    requires from in m && to in m && from != to
    ensures Total(m[from := m[from] - x][to := m[to] + x]) == Total(m)
  {
    TotalUpdate(m, from, m[from] - x);
    TotalUpdate(m[from := m[from] - x], to, m[to] + x);
  }

  /** A ledger whose every balance is zero holds no money. */
  lemma {:induction false} SumZero(m: Balances, ks: set<UserId>)
    requires ks <= m.Keys
    requires forall u :: u in ks ==> m[u] == 0
    ensures Sum(m, ks) == 0
    decreases ks
  {
    if ks != {} {
      var u :| u in ks;
      SumRemove(m, ks, u);
      SumZero(m, ks - {u});
    }
  }
}
