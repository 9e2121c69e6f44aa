/** Initialising a fanout and paying out its excess lamports to every member (fanout/src/lib.rs). */
module Fanout {
  import opened Wrappers
  import opened MachineInts
  import opened Sequences
  import opened Sums
  import opened FanoutSplit

  datatype Error =
    | Overflow
    | InvalidMemberCount
    | InvalidShares
    | DuplicateMember
    | MemberNotFound
    | BorrowFailed             // the fanout account itself, which is borrowed already
    | Panic                    // a failed assertion or unchecked arithmetic

  /** The fanout account and the lamports of everybody else. `rent` is the opaque rent minimum. */
  datatype Pool = Pool(
    address: Pubkey,
    rent: u64,
    members: seq<Member>,
    distributed: u64,
    fanoutLamports: u64,
    lamports: map<Pubkey, u64>)
  {
    /** What `initialize` guarantees from then on. */
    predicate Valid() {
      ValidMembers(members)
    }
  }

  ghost function Accounts(accounts: seq<Pubkey>): set<Pubkey> {
    set i | 0 <= i < |accounts| :: accounts[i]
  }

  function Excess(p: Pool): int {
    p.fanoutLamports - p.rent
  }

  // ---------------------------------------------------------------- specification

  /** No account of `paid` would overflow. */
  ghost predicate CreditsFit(lamports: map<Pubkey, u64>, split: map<Pubkey, u64>, paid: set<Pubkey>)
    requires paid <= split.Keys
  {
    forall a :: a in paid ==> Balance(lamports, a) + split[a] <= U64_MAX
  }

  /** Exactly when `distribute` goes through with these remaining accounts. */
  ghost predicate CanDistribute(p: Pool, accounts: seq<Pubkey>)
    requires p.Valid()
  {
    && 0 <= Excess(p)
    && Split(p.members, Excess(p)).Some?
    && AllDistinct(accounts)
    && |accounts| == |p.members|
    && Accounts(accounts) <= Split(p.members, Excess(p)).value.Keys
    && p.address !in Accounts(accounts)
    && CreditsFit(p.lamports, Split(p.members, Excess(p)).value, Accounts(accounts))
    && p.distributed + Excess(p) <= U64_MAX
  }

  /** Balances after paying `split` to the accounts in `paid`. */
  ghost function Credited(lamports: map<Pubkey, u64>, split: map<Pubkey, u64>, paid: set<Pubkey>): map<Pubkey, u64>
    requires paid <= split.Keys
    requires CreditsFit(lamports, split, paid)
  {
    map a | a in lamports.Keys + paid :: if a in paid then Balance(lamports, a) + split[a] else Balance(lamports, a)
  }

  /** Every member is paid its split, and the fanout is left with the rent minimum. */
  ghost function AfterDistribute(p: Pool, accounts: seq<Pubkey>): Pool
    requires p.Valid() && CanDistribute(p, accounts)
  {
    var split := Split(p.members, Excess(p)).value;
    p.(fanoutLamports := p.rent,
       distributed := p.distributed + Excess(p),
       lamports := Credited(p.lamports, split, Accounts(accounts)))
  }

  // ---------------------------------------------------------------- pigeonhole

  lemma {:induction false} DistinctCount(accounts: seq<Pubkey>)
    requires AllDistinct(accounts)
    ensures |Accounts(accounts)| == |accounts|
  {
    if accounts != [] {
      var last := |accounts| - 1;
      DistinctCount(accounts[..last]);
      assert Accounts(accounts) == Accounts(accounts[..last]) + {accounts[last]};
      assert accounts[last] !in Accounts(accounts[..last]);
    }
  }

  lemma SubsetOfEqualSize<T>(a: set<T>, b: set<T>)
    requires a <= b && |b| <= |a|
    ensures a == b
  {
    assert |b - a| == |b| - |a|;
  }

  /** There are at most as many addresses as members, and as many only when no address repeats. */
  lemma {:induction false} AddressCount(members: seq<Member>)
    ensures |Addresses(members)| <= |members|
    ensures |Addresses(members)| == |members| <==> Distinct(members)
  {
    if members != [] {
      var last := |members| - 1;
      AddressCount(members[..last]);
      AddressesGrow(members);
    }
  }

  lemma AddressesGrow(members: seq<Member>)
    requires members != []
    ensures var last := |members| - 1;
            && Addresses(members) == Addresses(members[..last]) + {members[last].address}
            && (Distinct(members) <==>
                  Distinct(members[..last]) && members[last].address !in Addresses(members[..last]))
  {
    var last := |members| - 1;
    assert forall i :: 0 <= i < last ==> members[..last][i] == members[i];
  }

  lemma SplitKeys(members: seq<Member>, amount: u64)
    requires ValidMembers(members) && Split(members, amount).Some?
    ensures Split(members, amount).value.Keys == Addresses(members)
  {
    RoundedSplitKeys(members, amount);
  }

  /**
   The pigeonhole step: as many distinct accounts as members, all of them keys of the split, are exactly the
   members, no address repeats, and the split they carry adds up to the amount.
   */
  lemma AccountsAreMembers(members: seq<Member>, amount: u64, split: map<Pubkey, u64>, accounts: seq<Pubkey>)
    requires ValidMembers(members) && Split(members, amount) == Some(split)
    requires AllDistinct(accounts) && |accounts| == |members| && Accounts(accounts) <= split.Keys
    ensures Distinct(members)
    ensures Accounts(accounts) == split.Keys == Addresses(members)
    ensures Sum(split) == amount && Restricted(split, Accounts(accounts)) == split
  {
    DistinctCount(accounts);
    SplitKeys(members, amount);
    AddressCount(members);
    SubsetOfEqualSize(Accounts(accounts), Addresses(members));
    SplitIsExact(members, amount);
  }

  /**
   The count of seen accounts proves completeness: a distribution goes through only if the members are
   distinct and the accounts are exactly the members, so nobody is missed and nobody is paid twice.
   */
  lemma EveryMemberSeen(p: Pool, accounts: seq<Pubkey>)
    requires p.Valid() && CanDistribute(p, accounts)
    ensures Distinct(p.members)
    ensures Accounts(accounts) == Addresses(p.members) == Split(p.members, Excess(p)).value.Keys
    ensures Sum(Split(p.members, Excess(p)).value) == Excess(p)
  {
    AccountsAreMembers(p.members, Excess(p), Split(p.members, Excess(p)).value, accounts);
  }

  /** A fanout initialised with a repeated address can never distribute again, whatever it receives. */
  lemma RepeatedAddressBlocksDistribution(p: Pool, accounts: seq<Pubkey>)
    requires p.Valid() && !Distinct(p.members)
    ensures !CanDistribute(p, accounts)
  {
    if CanDistribute(p, accounts) {
      EveryMemberSeen(p, accounts);
    }
  }

  /** What one distribution does, account by account. */
  lemma DistributionPaysMembers(p: Pool, accounts: seq<Pubkey>)
    requires p.Valid() && CanDistribute(p, accounts)
    ensures var split, q := Split(p.members, Excess(p)).value, AfterDistribute(p, accounts);
            && (forall a :: a in Addresses(p.members) ==>
                  a in split && Balance(q.lamports, a) == Balance(p.lamports, a) + split[a])
            && (forall a :: a !in Addresses(p.members) ==> Balance(q.lamports, a) == Balance(p.lamports, a))
            && Excess(q) == 0
  {
    EveryMemberSeen(p, accounts);
  }

  /** A distribution conserves lamports. */
  lemma DistributionConserves(p: Pool, accounts: seq<Pubkey>)
    requires p.Valid() && CanDistribute(p, accounts)
    ensures var q := AfterDistribute(p, accounts);
            Sum(q.lamports) + q.fanoutLamports == Sum(p.lamports) + p.fanoutLamports
  {
    var split := Split(p.members, Excess(p)).value;
    AccountsAreMembers(p.members, Excess(p), split, accounts);
    CreditedSum(p.lamports, split, Accounts(accounts));
  }

  ghost function Restricted(split: map<Pubkey, u64>, paid: set<Pubkey>): map<Pubkey, u64>
    requires paid <= split.Keys
  {
    map a | a in paid :: split[a]
  }

  lemma RestrictOneMore(split: map<Pubkey, u64>, paid: set<Pubkey>, k: Pubkey)
    requires paid + {k} <= split.Keys && k !in paid
    ensures Sum(Restricted(split, paid + {k})) == Sum(Restricted(split, paid)) + split[k]
  {
    assert Restricted(split, paid + {k}) == Restricted(split, paid)[k := split[k]];
    SumUpdate(Restricted(split, paid), k, split[k]);
  }

  /** Paying one more account is one update of the ledger. */
  lemma CreditOneMore(lamports: map<Pubkey, u64>, split: map<Pubkey, u64>, paid: set<Pubkey>, k: Pubkey)
    requires paid + {k} <= split.Keys && k !in paid
    requires CreditsFit(lamports, split, paid + {k})
    ensures var before := Credited(lamports, split, paid);
            && Balance(before, k) == Balance(lamports, k)
            && Credited(lamports, split, paid + {k}) == before[k := Balance(lamports, k) + split[k]]
  {
  }

  lemma {:induction false} CreditedSum(lamports: map<Pubkey, u64>, split: map<Pubkey, u64>, paid: set<Pubkey>)
    requires paid <= split.Keys
    requires CreditsFit(lamports, split, paid)
    ensures Sum(Credited(lamports, split, paid)) == Sum(lamports) + Sum(Restricted(split, paid))
    decreases paid
  {
    if paid == {} {
      assert Credited(lamports, split, paid) == lamports;
      assert Restricted(split, paid) == map[];
    } else {
      var k :| k in paid;
      var rest := paid - {k};
      assert rest + {k} == paid;
      CreditedSum(lamports, split, rest);
      CreditOneMoreSum(lamports, split, rest, k);
      RestrictOneMore(split, rest, k);
    }
  }

  lemma CreditOneMoreSum(lamports: map<Pubkey, u64>, split: map<Pubkey, u64>, paid: set<Pubkey>, k: Pubkey)
    requires paid + {k} <= split.Keys && k !in paid && CreditsFit(lamports, split, paid + {k})
    ensures CreditsFit(lamports, split, paid)
    ensures Sum(Credited(lamports, split, paid + {k})) == Sum(Credited(lamports, split, paid)) + split[k]
  {
    CreditOneMore(lamports, split, paid, k);
    SumWithBalance(Credited(lamports, split, paid), k, Balance(lamports, k) + split[k]);
  }

  // ---------------------------------------------------------------- the program

  class FanoutProgram {
    const address: Pubkey
    const rent: u64
    var members: seq<Member>
    var distributed: u64
    var fanoutLamports: u64
    var lamports: map<Pubkey, u64>

    ghost function View(): Pool
      reads this
    {
      Pool(address, rent, members, distributed, fanoutLamports, lamports)
    }

    /** An account that is not initialised yet, holding some lamports. */
    constructor (address: Pubkey, rent: u64, fanoutLamports: u64, lamports: map<Pubkey, u64>)
      ensures View() == Pool(address, rent, [], 0, fanoutLamports, lamports)
    {
      this.address, this.rent := address, rent;
      this.members, this.distributed := [], 0;
      this.fanoutLamports, this.lamports := fanoutLamports, lamports;
    }

    /** Accepts exactly the valid member lists; it does not look at the addresses. */
    method Initialize(newMembers: seq<Member>) returns (r: Result<(), Error>)
      modifies this
      ensures r.Success? <==>
                && 1 <= |newMembers| <= 10 && TotalShares(newMembers) == 10_000
                && (forall i :: 0 <= i < |newMembers| ==> 1 <= newMembers[i].share <= 10_000)
      ensures View() == if r.Success? then old(View()).(members := newMembers, distributed := 0) else old(View())
    {
      if |newMembers| == 0 || |newMembers| > 10 {
        return Failure(InvalidMemberCount);
      }
      var totalShares := 0;
      for i := 0 to |newMembers|
        invariant totalShares == TotalShares(newMembers[..i])
        invariant forall j :: 0 <= j < i ==> 1 <= newMembers[j].share <= 10_000
      {
        if newMembers[i].share == 0 || newMembers[i].share > 10_000 {
          return Failure(InvalidShares);
        }
        assert newMembers[..i + 1][..i] == newMembers[..i];
        totalShares := totalShares + newMembers[i].share;
      }
      assert newMembers[..|newMembers|] == newMembers;
      if totalShares != 10_000 {
        return Failure(InvalidShares);
      }
      distributed := 0;
      members := newMembers;
      return Success(());
    }

    /**
     One turn of the loop over the remaining accounts, from the state `start` in which the accounts `seen` have been
     paid. The fanout itself cannot be borrowed a second time.
     */
    method PayOne(acc: Pubkey, split: map<Pubkey, u64>, ghost start: Pool, ghost seen: set<Pubkey>)
      returns (r: Result<(), Error>)
      requires acc !in seen && Payable(start, seen, split) && View() == Paid(start, seen, split)
      modifies this
      ensures r.Success? <==> Payable(start, seen + {acc}, split)
      ensures r.Success? ==> View() == Paid(start, seen + {acc}, split)
    {
      PayableOneMore(start, seen, split, acc);
      if acc !in split {
        return Failure(Panic);
      }
      var amount := split[acc];
      if acc == address {
        return Failure(BorrowFailed);
      }
      var grown :- ToU64(Balance(lamports, acc) + amount).OkOr(Overflow);
      lamports := lamports[acc := grown];
      var left :- ToU64(fanoutLamports - amount).OkOr(Overflow);
      fanoutLamports := left;
      var total :- ToU64(distributed + amount).OkOr(Panic);
      distributed := total;
      PaidOneMore(start, seen, split, acc);
      return Success(());
    }

    /** The loop, with the set of accounts seen so far. */
    method PayMembers(accounts: seq<Pubkey>, split: map<Pubkey, u64>) returns (r: Result<(), Error>)
      modifies this
      ensures r.Success? <==> AllDistinct(accounts) && Payable(old(View()), Accounts(accounts), split)
      ensures r.Success? ==> View() == Paid(old(View()), Accounts(accounts), split)
    {
      ghost var start := View();
      var seen: set<Pubkey> := {};
      NothingPaid(start, split);
      for i := 0 to |accounts|
        invariant seen == Accounts(accounts[..i]) && AllDistinct(accounts[..i])
        invariant Payable(start, seen, split) && View() == Paid(start, seen, split)
      {
        AccountsGrow(accounts, i);
        if accounts[i] in seen {
          return Failure(DuplicateMember);
        }
        r := PayOne(accounts[i], split, start, seen);
        if r.Failure? {
          if Payable(start, Accounts(accounts), split) {
            PayableMono(start, seen + {accounts[i]}, Accounts(accounts), split);
          }
          return;
        }
        seen := seen + {accounts[i]};
      }
      assert accounts[..|accounts|] == accounts;
      return Success(());
    }

    /** Pays the excess over rent to the given accounts; a failed call may have paid some of them already. */
    method Distribute(accounts: seq<Pubkey>) returns (r: Result<(), Error>)
      requires View().Valid()
      modifies this
      ensures r.Success? <==> CanDistribute(old(View()), accounts)
      ensures r.Success? ==> View() == AfterDistribute(old(View()), accounts)
    {
      if fanoutLamports < rent {
        return Failure(Overflow);
      }
      var amount := fanoutLamports - rent;
      var maybeSplit := CalculateSplit(members, amount);
      if maybeSplit.None? {
        return Failure(Overflow);
      }
      PayableIffCanDistribute(View(), accounts, maybeSplit.value);
      r := PayMembers(accounts, maybeSplit.value);
      if r.Failure? {
        return;
      }
      if |accounts| != |members| {
        return Failure(MemberNotFound);
      }
      return Success(());
    }

    /** A distribution as a transaction: whatever a failed one has already paid is rolled back. */
    method Process(accounts: seq<Pubkey>) returns (r: Result<(), Error>)
      requires View().Valid()
      modifies this
      ensures r.Success? <==> CanDistribute(old(View()), accounts)
      ensures View() == if r.Success? then AfterDistribute(old(View()), accounts) else old(View())
    {
      var list, money, own, total := members, lamports, fanoutLamports, distributed;
      r := Distribute(accounts);
      if r.Failure? {
        members, lamports, fanoutLamports, distributed := list, money, own, total;
      }
    }
  }

  // ---------------------------------------------------------------- the payment loop

  /** When a set of accounts can be paid. */
  ghost predicate Payable(p: Pool, paid: set<Pubkey>, split: map<Pubkey, u64>) {
    && paid <= split.Keys
    && p.address !in paid
    && CreditsFit(p.lamports, split, paid)
    && Sum(Restricted(split, paid)) <= p.fanoutLamports
    && p.distributed + Sum(Restricted(split, paid)) <= U64_MAX
  }

  /** The fanout and the members' balances once they are. */
  ghost function Paid(p: Pool, paid: set<Pubkey>, split: map<Pubkey, u64>): Pool
    requires Payable(p, paid, split)
  {
    var sent := Sum(Restricted(split, paid));
    p.(lamports := Credited(p.lamports, split, paid),
       fanoutLamports := p.fanoutLamports - sent,
       distributed := p.distributed + sent)
  }

  lemma NothingPaid(p: Pool, split: map<Pubkey, u64>)
    ensures Payable(p, {}, split) && Paid(p, {}, split) == p
  {
    assert Restricted(split, {}) == map[];
    assert Credited(p.lamports, split, {}) == p.lamports;
  }

  lemma AccountsGrow(accounts: seq<Pubkey>, i: nat)
    requires i < |accounts|
    ensures Accounts(accounts[..i + 1]) == Accounts(accounts[..i]) + {accounts[i]} <= Accounts(accounts)
    ensures AllDistinct(accounts[..i + 1]) <==> AllDistinct(accounts[..i]) && accounts[i] !in Accounts(accounts[..i])
    ensures AllDistinct(accounts) ==> AllDistinct(accounts[..i + 1])
  {
    var grown := accounts[..i + 1];
    assert grown == accounts[..i] + [accounts[i]];
    assert forall j :: 0 <= j < i ==> grown[j] == accounts[..i][j];
  }

  /** If a set can be paid, so can every part of it. */
  lemma PayableMono(p: Pool, fewer: set<Pubkey>, more: set<Pubkey>, split: map<Pubkey, u64>)
    requires fewer <= more && Payable(p, more, split)
    ensures Payable(p, fewer, split)
  {
    SumMono(Restricted(split, fewer), Restricted(split, more));
  }

  /** One more account can be paid exactly when it is a member, not the fanout, and no sum overflows. */
  lemma PayableOneMore(p: Pool, seen: set<Pubkey>, split: map<Pubkey, u64>, acc: Pubkey)
    requires Payable(p, seen, split) && acc !in seen
    ensures var m := Paid(p, seen, split);
            Payable(p, seen + {acc}, split) <==>
              && acc in split
              && acc != p.address
              && Balance(m.lamports, acc) + split[acc] <= U64_MAX
              && split[acc] <= m.fanoutLamports
              && m.distributed + split[acc] <= U64_MAX
  {
    assert Balance(Credited(p.lamports, split, seen), acc) == Balance(p.lamports, acc);
    if acc in split {
      RestrictOneMore(split, seen, acc);
      assert CreditsFit(p.lamports, split, seen + {acc}) <==> Balance(p.lamports, acc) + split[acc] <= U64_MAX;
    }
  }

  lemma PaidOneMore(p: Pool, seen: set<Pubkey>, split: map<Pubkey, u64>, acc: Pubkey)
    requires Payable(p, seen, split) && acc !in seen && Payable(p, seen + {acc}, split)
    ensures var m := Paid(p, seen, split);
            && Balance(m.lamports, acc) == Balance(p.lamports, acc)
            && split[acc] <= m.fanoutLamports && m.distributed + split[acc] <= U64_MAX
            && Paid(p, seen + {acc}, split)
               == m.(lamports := m.lamports[acc := Balance(p.lamports, acc) + split[acc]],
                     fanoutLamports := m.fanoutLamports - split[acc],
                     distributed := m.distributed + split[acc])
  {
    RestrictOneMore(split, seen, acc);
    CreditOneMore(p.lamports, split, seen, acc);
  }

  /** The loop plus the final count is `CanDistribute`, and leaves exactly the rent minimum. */
  lemma PayableIffCanDistribute(p: Pool, accounts: seq<Pubkey>, split: map<Pubkey, u64>)
    requires p.Valid() && 0 <= Excess(p) && Split(p.members, Excess(p)) == Some(split)
    ensures CanDistribute(p, accounts) <==>
              AllDistinct(accounts) && Payable(p, Accounts(accounts), split) && |accounts| == |p.members|
    ensures CanDistribute(p, accounts) ==>
              Paid(p, Accounts(accounts), split) == AfterDistribute(p, accounts)
  {
    if AllDistinct(accounts) && Accounts(accounts) <= split.Keys && |accounts| == |p.members| {
      AccountsAreMembers(p.members, Excess(p), split, accounts);
    }
  }

  // ---------------------------------------------------------------- runs

  datatype Op =
    | Distribute(accounts: seq<Pubkey>)
    | Donate(amount: u64)                          // lamports sent to the fanout
    | Outside(lamports: map<Pubkey, u64>)          // anything else that happens to other accounts

  /** A run and everything that flowed into the fanout beyond rent since it was initialised. */
  datatype Trace = Trace(pool: Pool, inflow: int)

  ghost function Step(t: Trace, op: Op): Trace
    requires t.pool.Valid()
  {
    match op
    case Distribute(accounts) =>
      if CanDistribute(t.pool, accounts) then t.(pool := AfterDistribute(t.pool, accounts)) else t
    case Donate(amount) =>
      if t.pool.fanoutLamports + amount > U64_MAX then t
      else Trace(t.pool.(fanoutLamports := t.pool.fanoutLamports + amount), t.inflow + amount)
    case Outside(lamports) =>
      t.(pool := t.pool.(lamports := lamports))
  }

  ghost function Run(t: Trace, ops: seq<Op>): (after: Trace)
    requires t.pool.Valid()
    ensures after.pool.Valid()
  {
    if ops == [] then t else Step(Run(t, ops[..|ops| - 1]), ops[|ops| - 1])
  }

  /** Over whole runs everything that came in is either still there above rent or was distributed. */
  lemma {:induction false} InflowIsAccountedFor(p: Pool, ops: seq<Op>)
    requires p.Valid() && p.distributed == 0
    ensures var t := Run(Trace(p, Excess(p)), ops);
            && t.inflow == Excess(t.pool) + t.pool.distributed
            && t.pool.members == p.members && t.pool.rent == p.rent
  {
    if ops != [] {
      InflowIsAccountedFor(p, ops[..|ops| - 1]);
    }
  }
}
