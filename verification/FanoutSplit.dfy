/** The rounding split of a fanout, with its correction of the first member (fanout/src/state.rs). */
module FanoutSplit {
  import opened Wrappers
  import opened MachineInts
  import opened Arithmetic
  import opened FixedPoint
  import opened Sums

  type Pubkey = nat

  datatype Member = Member(address: Pubkey, share: u16)

  function TotalShares(members: seq<Member>): nat {
    if members == [] then 0
    else TotalShares(members[..|members| - 1]) + members[|members| - 1].share
  }

  /** What `initialize` accepts: 1 to 10 members, every share positive, 10000 shares in all. */
  predicate ValidMembers(members: seq<Member>) {
    && 1 <= |members| <= 10
    && (forall i :: 0 <= i < |members| ==> 1 <= members[i].share <= 10_000)
    && TotalShares(members) == 10_000
  }

  predicate Distinct(members: seq<Member>) {
    forall i, j :: 0 <= i < j < |members| ==> members[i].address != members[j].address
  }

  ghost function Addresses(members: seq<Member>): set<Pubkey> {
    set i | 0 <= i < |members| :: members[i].address
  }

  // ---------------------------------------------------------------- specification

  /** Every member's share rounded half up; a repeated address keeps its last share. */
  function RoundedSplit(members: seq<Member>, amount: u64): map<Pubkey, u64>
    requires forall i :: 0 <= i < |members| ==> members[i].share <= 10_000
  {
    if members == [] then map[]
    else
      var m := members[|members| - 1];
      MulBpsClosedForm(amount, m.share);
      RoundedSplit(members[..|members| - 1], amount)[m.address := RoundedBps(amount, m.share)]
  }

  lemma {:induction false} RoundedSplitKeys(members: seq<Member>, amount: u64)
    requires forall i :: 0 <= i < |members| ==> members[i].share <= 10_000
    ensures RoundedSplit(members, amount).Keys == Addresses(members)
  {
    if members != [] {
      var last := |members| - 1;
      RoundedSplitKeys(members[..last], amount);
      assert Addresses(members) == Addresses(members[..last]) + {members[last].address};
    }
  }

  /**
   What the first member gets once it has absorbed the difference between the amount and the total. The
   difference is taken between signed casts, and every overflowing step panics.
   */
  function Corrected(first: u64, total: u64, amount: u64): Option<u64> {
    var diff :- ToI64(AsI64(amount) - AsI64(total));
    if diff == 0 then Some(first)
    else
      var signed :- ToI64(AsI64(first) + diff);
      ToU64(signed)
  }

  /** Corrects one entry so that the whole map adds up to `amount`. */
  ghost function Adjusted(rounded: map<Pubkey, u64>, first: Pubkey, amount: u64): Option<map<Pubkey, u64>>
    requires first in rounded
  {
    var total :- ToU64(Sum(rounded));
    var corrected :- Corrected(rounded[first], total, amount);
    Some(rounded[first := corrected])
  }

  ghost function Split(members: seq<Member>, amount: u64): Option<map<Pubkey, u64>>
    requires ValidMembers(members)
  {
    RoundedSplitKeys(members, amount);
    Adjusted(RoundedSplit(members, amount), members[0].address, amount)
  }

  // ---------------------------------------------------------------- implementation

  /** `split.values().sum()`, which panics on overflow. */
  method SumValues(split: map<Pubkey, u64>) returns (r: Option<u64>)
    ensures r == ToU64(Sum(split))
  {
    var total: u64 := 0;
    var left := split;
    while left.Keys != {}
      invariant total + Sum(left) == Sum(split)
      decreases left.Keys
    {
      var k :| k in left;
      SumRemove(left, k);
      if total + left[k] > U64_MAX {
        return None;
      }
      total := total + left[k];
      left := left - {k};
    }
    return Some(total);
  }

  /** `calculate_split`: a loop filling the map, the sum, and one correction in place. */
  method CalculateSplit(members: seq<Member>, amount: u64) returns (r: Option<map<Pubkey, u64>>)
    requires ValidMembers(members)
    ensures r == Split(members, amount)
  {
    var split: map<Pubkey, u64> := map[];
    for i := 0 to |members|
      invariant split == RoundedSplit(members[..i], amount)
    {
      MulBpsClosedForm(amount, members[i].share);
      assert members[..i + 1][..i] == members[..i];
      var shareAmount := MulBps(amount, members[i].share);
      if shareAmount.None? {
        return None;
      }
      split := split[members[i].address := shareAmount.value];
    }
    assert members[..|members|] == members;
    RoundedSplitKeys(members, amount);

    var total :- SumValues(split);
    var first := members[0].address;
    var diff :- ToI64(AsI64(amount) - AsI64(total));
    if diff != 0 {
      var signed :- ToI64(AsI64(split[first]) + diff);
      var corrected :- ToU64(signed);
      split := split[first := corrected];
    } else {
      assert split[first := split[first]] == split;
    }
    return Some(split);
  }

  // ---------------------------------------------------------------- exactness

  /** The sum of the rounded shares, member by member. */
  function RoundedTotal(members: seq<Member>, amount: u64): nat {
    if members == [] then 0
    else RoundedTotal(members[..|members| - 1], amount) + RoundedBps(amount, members[|members| - 1].share)
  }

  /** Each share is rounded by at most a half, so n of them are off by at most n halves. */
  lemma {:induction false} RoundedTotalBounds(members: seq<Member>, amount: u64)
    ensures TotalShares(members) * amount - 5000 * |members| <= 10_000 * RoundedTotal(members, amount)
                <= TotalShares(members) * amount + 5000 * |members|
  {
    if members != [] {
      var last := |members| - 1;
      var share := members[last].share;
      RoundedTotalBounds(members[..last], amount);
      DivBracket(amount * share + 5000, 10_000);
      assert TotalShares(members) * amount == TotalShares(members[..last]) * amount + share * amount;
    }
  }

  lemma {:induction false} DistinctSum(members: seq<Member>, amount: u64)
    requires Distinct(members)
    requires forall i :: 0 <= i < |members| ==> members[i].share <= 10_000
    ensures Sum(RoundedSplit(members, amount)) == RoundedTotal(members, amount)
    ensures forall i :: 0 <= i < |members| ==>
              && members[i].address in RoundedSplit(members, amount)
              && RoundedSplit(members, amount)[members[i].address] == RoundedBps(amount, members[i].share)
  {
    if members != [] {
      var last := |members| - 1;
      DistinctSum(members[..last], amount);
      RoundedSplitKeys(members[..last], amount);
      SumUpdate(RoundedSplit(members[..last], amount), members[last].address, RoundedBps(amount, members[last].share));
    }
  }

  lemma {:induction false} FirstSplitsOff(members: seq<Member>, amount: u64)
    requires members != []
    ensures RoundedTotal(members, amount) == RoundedBps(amount, members[0].share) + RoundedTotal(members[1..], amount)
    ensures TotalShares(members) == members[0].share + TotalShares(members[1..])
  {
    var last := |members| - 1;
    if last == 0 {
      assert members[..last] == [] && members[1..] == [];
    } else {
      FirstSplitsOff(members[..last], amount);
      assert members[..last][1..] == members[1..][..last - 1];
    }
  }

  /** What the members after the first receive together. */
  function OthersReceive(members: seq<Member>, amount: u64): nat
    requires members != []
  {
    RoundedTotal(members[1..], amount)
  }

  /** When the first share can absorb the difference to the amount: no cast or sum leaves its range. */
  predicate CorrectionFits(first: nat, others: nat, amount: u64) {
    && first + others <= U64_MAX
    && (first + others == amount
        || (&& (amount <= I64_MAX <==> first + others <= I64_MAX)
            && first <= I64_MAX
            && others <= amount <= others + I64_MAX))
  }

  /** The guard under which the corrected split exists, in terms of the rounded shares alone. */
  predicate Splittable(members: seq<Member>, amount: u64)
    requires ValidMembers(members)
  {
    CorrectionFits(RoundedBps(amount, members[0].share), OthersReceive(members, amount), amount)
  }

  /** The rounded shares miss the amount by at most n/2, and those after the first by at most (n-1)/2. */
  lemma SharesNearAmount(members: seq<Member>, amount: u64)
    requires ValidMembers(members)
    ensures var first, others := RoundedBps(amount, members[0].share), OthersReceive(members, amount);
            && RoundedTotal(members, amount) == first + others
            && -|members| <= 2 * (first + others - amount) <= |members|
            && -5000 * (|members| - 1) <= 10_000 * (amount - others) - amount * members[0].share
                                       <= 5000 * (|members| - 1)
  {
    FirstSplitsOff(members, amount);
    RoundedTotalBounds(members, amount);
    RoundedTotalBounds(members[1..], amount);
    NearArithmetic(|members|, members[0].share, amount, RoundedBps(amount, members[0].share),
                   OthersReceive(members, amount), TotalShares(members[1..]));
  }

  lemma NearArithmetic(n: nat, share: nat, amount: nat, first: nat, others: nat, otherShares: nat)
    requires 1 <= n && share + otherShares == 10_000
    requires 10_000 * amount - 5000 * n <= 10_000 * (first + others) <= 10_000 * amount + 5000 * n
    requires otherShares * amount - 5000 * (n - 1) <= 10_000 * others <= otherShares * amount + 5000 * (n - 1)
    ensures 0 - n <= 2 * (first + others - amount) <= n
    ensures -5000 * (n - 1) <= 10_000 * (amount - others) - amount * share <= 5000 * (n - 1)
  {
    assert otherShares * amount + amount * share == 10_000 * amount;
  }

  /** The signed correction restores the amount whenever it fits, and otherwise there is no split. */
  lemma AdjustmentRestoresAmount(rounded: map<Pubkey, u64>, first: Pubkey, others: nat, amount: u64)
    requires first in rounded && Sum(rounded) == rounded[first] + others
    requires -5 <= Sum(rounded) - amount <= 5
    ensures Adjusted(rounded, first, amount).Some? <==> CorrectionFits(rounded[first], others, amount)
    ensures Adjusted(rounded, first, amount).Some? ==>
              var split := Adjusted(rounded, first, amount).value;
              0 <= amount - others && split == rounded[first := amount - others] && Sum(split) == amount
  {
    if 0 <= amount - others {
      SumUpdate(rounded, first, amount - others);
    }
  }

  /**
   A split exists exactly when the guard holds. It then adds up to the amount to the lamport, every
   member after the first gets its share rounded half up, and the first gets the rest.
   */
  lemma SplitIsExact(members: seq<Member>, amount: u64)
    requires ValidMembers(members) && Distinct(members)
    ensures Split(members, amount).Some? <==> Splittable(members, amount)
    ensures Split(members, amount).Some? ==>
              var split := Split(members, amount).value;
              && split.Keys == Addresses(members)
              && Sum(split) == amount
              && (forall i :: 1 <= i < |members| ==>
                    split[members[i].address] == RoundedBps(amount, members[i].share))
              && split[members[0].address] == amount - OthersReceive(members, amount)
  {
    var rounded := RoundedSplit(members, amount);
    RoundedSplitKeys(members, amount);
    DistinctSum(members, amount);
    SharesNearAmount(members, amount);
    AdjustmentRestoresAmount(RoundedSplit(members, amount), members[0].address, OthersReceive(members, amount), amount);
  }

  /** The first member, who takes the rest, is within (n-1)/2 lamports of its exact share. */
  lemma FirstMemberAccuracy(members: seq<Member>, amount: u64)
    requires ValidMembers(members) && Distinct(members) && Split(members, amount).Some?
    ensures Split(members, amount).value.Keys == Addresses(members)
    ensures var off := 10_000 * Split(members, amount).value[members[0].address] - amount * members[0].share;
            -5000 * (|members| - 1) <= off <= 5000 * (|members| - 1)
  {
    SplitIsExact(members, amount);
    SharesNearAmount(members, amount);
  }

  /** Away from the sign boundary the only thing that can fail is the first member going negative. */
  lemma SplitBelowSignBoundary(members: seq<Member>, amount: u64)
    requires ValidMembers(members) && Distinct(members) && amount <= I64_MAX - 5
    ensures Split(members, amount).Some? <==> OthersReceive(members, amount) <= amount
    ensures 2 * (amount * members[0].share) >= 10_000 * (|members| - 1) ==> Split(members, amount).Some?
  {
    SplitIsExact(members, amount);
    SharesNearAmount(members, amount);
    MulBpsClosedForm(amount, members[0].share);
  }

  /**
   The repository's property test expects a split for every amount from 10 up. Two equal members and
   the largest signed amount are within its range, and the signed difference overflows.
   */
  lemma SplitFailsAtSignBoundary(a: Pubkey, b: Pubkey)
    requires a != b
    ensures var members := [Member(a, 5000), Member(b, 5000)];
            ValidMembers(members) && Split(members, I64_MAX).None?
  {
    var members := [Member(a, 5000), Member(b, 5000)];
    assert members[..1] == [Member(a, 5000)] && members[1..] == [Member(b, 5000)];
    assert TotalShares(members[1..]) == 5000;
    FirstSplitsOff(members, I64_MAX);
    assert RoundedBps(I64_MAX, 5000) == 0x4000_0000_0000_0000;
    assert OthersReceive(members, I64_MAX) == 0x4000_0000_0000_0000;
    SplitIsExact(members, I64_MAX);
  }
}
