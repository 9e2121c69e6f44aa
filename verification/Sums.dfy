/** Sums over finite maps, and moves of an amount between two entries of a ledger. */
module Sums {
  import opened Wrappers
  import opened MachineInts

  ghost function Sum<K>(m: map<K, nat>): nat {
    if m == map[] then 0
    else
      var k :| k in m;
      m[k] + Sum(m - {k})
  }

  lemma {:induction false} SumRemove<K>(m: map<K, nat>, k: K)
    requires k in m
    ensures Sum(m) == m[k] + Sum(m - {k})
    decreases |m|
  {
    var j :| j in m && Sum(m) == m[j] + Sum(m - {j});
    if j != k {
      SumRemove(m - {j}, k);
      SumRemove(m - {k}, j);
      assert m - {j} - {k} == m - {k} - {j};
    }
  }

  lemma SumUpdate<K>(m: map<K, nat>, k: K, v: nat)
    ensures Sum(m[k := v]) == Sum(m) - (if k in m then m[k] else 0) + v
  {
    SumRemove(m[k := v], k);
    assert m[k := v] - {k} == m - {k};
    if k in m {
      SumRemove(m, k);
    } else {
      assert m - {k} == m;
    }
  }

  /** Fewer keys and smaller values give a smaller sum. */
  lemma {:induction false} SumMono<K>(m: map<K, nat>, n: map<K, nat>)
    requires forall k :: k in m ==> k in n && m[k] <= n[k]
    ensures Sum(m) <= Sum(n)
    decreases |m|
  {
    if m != map[] {
      var k :| k in m;
      SumRemove(m, k);
      SumRemove(n, k);
      SumMono(m - {k}, n - {k});
    }
  }

  lemma SumHasTerm<K>(m: map<K, nat>, k: K)
    requires k in m
    ensures m[k] <= Sum(m)
  {
    SumRemove(m, k);
  }

  lemma {:induction false} SumConstant<K>(m: map<K, nat>, c: nat)
    requires forall k :: k in m ==> m[k] == c
    ensures Sum(m) == |m| * c
    decreases |m|
  {
    if m != map[] {
      var k :| k in m;
      SumRemove(m, k);
      SumConstant(m - {k}, c);
      assert |m| == |m - {k}| + 1;
      assert |m| * c == |m - {k}| * c + c;
    }
  }

  // ---------------------------------------------------------------- ledgers

  /** An account that was never written holds nothing. */
  function Balance<A>(ledger: map<A, u64>, a: A): u64 {
    if a in ledger then ledger[a] else 0
  }

  /** A checked transfer: fails on an overdraft or when the receiver would overflow. */
  function Move<A>(ledger: map<A, u64>, from: A, to: A, amount: u64): Option<map<A, u64>> {
    var left :- ToU64(Balance(ledger, from) - amount);
    var debited := ledger[from := left];
    var grown :- ToU64(Balance(debited, to) + amount);
    Some(debited[to := grown])
  }

  lemma SumWithBalance<A>(ledger: map<A, u64>, a: A, v: u64)
    ensures Sum(ledger[a := v]) == Sum(ledger) - Balance(ledger, a) + v
    ensures Balance(ledger, a) <= Sum(ledger)
  {
    SumUpdate(ledger, a, v);
    if a in ledger {
      SumHasTerm(ledger, a);
    }
  }

  /** A transfer conserves the total and touches only its two ends. */
  lemma MoveConserves<A>(ledger: map<A, u64>, from: A, to: A, amount: u64)
    requires Move(ledger, from, to, amount).Some?
    ensures var after := Move(ledger, from, to, amount).value;
            && Sum(after) == Sum(ledger)
            && Balance(after, from) == Balance(ledger, from) - (if from == to then 0 else amount)
            && Balance(after, to) == Balance(ledger, to) + (if from == to then 0 else amount)
            && (forall a :: a != from && a != to ==> Balance(after, a) == Balance(ledger, a))
  {
    var left := Balance(ledger, from) - amount;
    var debited := ledger[from := left];
    SumWithBalance(ledger, from, left);
    SumWithBalance(debited, to, Balance(debited, to) + amount);
  }

  /** As long as the whole supply fits 64 bits, a transfer can only fail for lack of funds. */
  lemma MoveSucceeds<A>(ledger: map<A, u64>, from: A, to: A, amount: u64)
    requires Sum(ledger) <= U64_MAX && amount <= Balance(ledger, from)
    ensures Move(ledger, from, to, amount).Some?
  {
    var left := Balance(ledger, from) - amount;
    var debited := ledger[from := left];
    SumWithBalance(ledger, from, left);
    SumWithBalance(debited, to, 0);
  }
}
