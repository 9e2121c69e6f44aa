/** The human contract's state account: both layouts, initialization and migration (human/src/state.rs). */
module ContractState {
  import opened Wrappers
  import opened MachineInts
  import opened Vesting
  import opened Borsh

  const STATE_ACC_SIZE: nat := 513
  const V3_MAGIC: u8 := 0x44
  const V4_MAGIC: u8 := 0x45

  datatype DropV1 = DropV1(price: u64, startDate: i64, endDate: i64)

  datatype DropV2 = DropV2(id: u64, price: u64, amount: u64, createdAt: i64, startDate: i64, endDate: i64)

  datatype Split = Split(percent: u16, splitAddr: Key)

  datatype ContractStateV3 = ContractStateV3(
    token: Key,
    owner: Key,
    admin: Key,
    commissionAddr: Key,
    sold: u64,
    vest: Vested,
    drop: Option<DropV1>,
    additionalSplit: Option<Split>)

  /** The leading fields of the current layout; their encoding has a fixed length. */
  datatype Fixed = Fixed(
    token: Key,
    owner: Key,
    admin: Key,
    commissionAddr: Key,
    treasuryAddr: Key,
    swapState: Key,
    sold: u64,
    vest: Vested)

  datatype ContractStateV4 = ContractStateV4(
    head: Fixed,
    drop: Option<DropV2>,
    currentRound: Option<Key>,
    completedRoundsCount: u64)

  const NO_KEY: Key := seq(32, _ => 0)

  // ---------------------------------------------------------------- parts of the layouts

  /** Two encoders in a row: if each can be split off its tail, so can both. */
  lemma AppendBoth(first: Bytes, second: Bytes, tail: Bytes)
    ensures first + (second + tail) == first + second + tail
  {
  }

  function PutVest(v: Vested, tail: Bytes): Bytes {
    PutI64(v.deployedAt, PutU8(v.vestedPeriods, tail))
  }

  function GetVest(b: Bytes): Option<(Vested, Bytes)> {
    var (deployedAt, b1) :- GetI64(b);
    var (vestedPeriods, b2) :- GetU8(b1);
    Some((Vested(deployedAt, vestedPeriods), b2))
  }

  lemma VestRead(v: Vested, tail: Bytes)
    ensures GetVest(PutVest(v, tail)) == Some((v, tail))
    ensures PutVest(v, tail) == PutVest(v, []) + tail
  {
    I64Laws(v.deployedAt, PutU8(v.vestedPeriods, tail), []);
    I64Laws(v.deployedAt, PutU8(v.vestedPeriods, []), []);
    U8Laws(v.vestedPeriods, tail, []);
  }

  lemma VestCanonical(b: Bytes)
    requires GetVest(b).Some?
    ensures b == PutVest(GetVest(b).value.0, GetVest(b).value.1)
  {
    I64Laws(0, [], b);
    U8Laws(0, [], GetI64(b).value.1);
  }

  function PutDropV1(d: DropV1, tail: Bytes): Bytes {
    PutU64(d.price, PutI64(d.startDate, PutI64(d.endDate, tail)))
  }

  function GetDropV1(b: Bytes): Option<(DropV1, Bytes)> {
    var (price, b1) :- GetU64(b);
    var (startDate, b2) :- GetI64(b1);
    var (endDate, b3) :- GetI64(b2);
    Some((DropV1(price, startDate, endDate), b3))
  }

  lemma DropV1Read(d: DropV1, tail: Bytes)
    ensures GetDropV1(PutDropV1(d, tail)) == Some((d, tail))
    ensures PutDropV1(d, tail) == PutDropV1(d, []) + tail
  {
    U64Laws(d.price, PutI64(d.startDate, PutI64(d.endDate, tail)), []);
    U64Laws(d.price, PutI64(d.startDate, PutI64(d.endDate, [])), []);
    I64Laws(d.startDate, PutI64(d.endDate, tail), []);
    I64Laws(d.startDate, PutI64(d.endDate, []), []);
    I64Laws(d.endDate, tail, []);
  }

  lemma DropV1Canonical(b: Bytes)
    requires GetDropV1(b).Some?
    ensures b == PutDropV1(GetDropV1(b).value.0, GetDropV1(b).value.1)
  {
    U64Laws(0, [], b);
    var b1 := GetU64(b).value.1;
    I64Laws(0, [], b1);
    I64Laws(0, [], GetI64(b1).value.1);
  }

  function PutDropV2(d: DropV2, tail: Bytes): Bytes {
    PutU64(d.id, PutU64(d.price, PutU64(d.amount, PutDates(d.createdAt, d.startDate, d.endDate, tail))))
  }

  function PutDates(createdAt: i64, startDate: i64, endDate: i64, tail: Bytes): Bytes {
    PutI64(createdAt, PutI64(startDate, PutI64(endDate, tail)))
  }

  function GetDates(b: Bytes): Option<(i64, i64, i64, Bytes)> {
    var (createdAt, b1) :- GetI64(b);
    var (startDate, b2) :- GetI64(b1);
    var (endDate, b3) :- GetI64(b2);
    Some((createdAt, startDate, endDate, b3))
  }

  function GetDropV2(b: Bytes): Option<(DropV2, Bytes)> {
    var (id, b1) :- GetU64(b);
    var (price, b2) :- GetU64(b1);
    var (amount, b3) :- GetU64(b2);
    var (createdAt, startDate, endDate, b4) :- GetDates(b3);
    Some((DropV2(id, price, amount, createdAt, startDate, endDate), b4))
  }

  lemma DatesRead(createdAt: i64, startDate: i64, endDate: i64, tail: Bytes)
    ensures GetDates(PutDates(createdAt, startDate, endDate, tail)) == Some((createdAt, startDate, endDate, tail))
    ensures PutDates(createdAt, startDate, endDate, tail) == PutDates(createdAt, startDate, endDate, []) + tail
  {
    I64Laws(createdAt, PutI64(startDate, PutI64(endDate, tail)), []);
    I64Laws(createdAt, PutI64(startDate, PutI64(endDate, [])), []);
    I64Laws(startDate, PutI64(endDate, tail), []);
    I64Laws(startDate, PutI64(endDate, []), []);
    I64Laws(endDate, tail, []);
  }

  lemma DatesCanonical(b: Bytes)
    requires GetDates(b).Some?
    ensures var (c, s, e, rest) := GetDates(b).value; b == PutDates(c, s, e, rest)
  {
    I64Laws(0, [], b);
    var b1 := GetI64(b).value.1;
    I64Laws(0, [], b1);
    I64Laws(0, [], GetI64(b1).value.1);
  }

  lemma DropV2Read(d: DropV2, tail: Bytes)
    ensures GetDropV2(PutDropV2(d, tail)) == Some((d, tail))
  {
    var dates := PutDates(d.createdAt, d.startDate, d.endDate, tail);
    DatesRead(d.createdAt, d.startDate, d.endDate, tail);
    U64Laws(d.id, PutU64(d.price, PutU64(d.amount, dates)), []);
    U64Laws(d.price, PutU64(d.amount, dates), []);
    U64Laws(d.amount, dates, []);
  }

  lemma TwoU64Append(a: u64, b: u64, tail: Bytes)
    ensures PutU64(a, PutU64(b, tail)) == PutU64(a, PutU64(b, [])) + tail
  {
    U64Laws(a, PutU64(b, tail), []);
    U64Laws(a, PutU64(b, []), []);
    U64Laws(b, tail, []);
    AppendBoth(PutU64(a, []), PutU64(b, []), tail);
  }

  lemma DropV2Append(d: DropV2, tail: Bytes)
    ensures PutDropV2(d, tail) == PutDropV2(d, []) + tail
  {
    var dates := PutDates(d.createdAt, d.startDate, d.endDate, []);
    DatesRead(d.createdAt, d.startDate, d.endDate, tail);
    U64Laws(d.amount, dates + tail, []);
    U64Laws(d.amount, dates, []);
    AppendBoth(PutU64(d.amount, []), dates, tail);
    var inner := PutU64(d.amount, dates);
    TwoU64Append(d.id, d.price, inner + tail);
    TwoU64Append(d.id, d.price, inner);
    AppendBoth(PutU64(d.id, PutU64(d.price, [])), inner, tail);
  }

  lemma DropV2Canonical(b: Bytes)
    requires GetDropV2(b).Some?
    ensures b == PutDropV2(GetDropV2(b).value.0, GetDropV2(b).value.1)
  {
    U64Laws(0, [], b);
    var b1 := GetU64(b).value.1;
    U64Laws(0, [], b1);
    var b2 := GetU64(b1).value.1;
    U64Laws(0, [], b2);
    DatesCanonical(GetU64(b2).value.1);
  }

  function PutSplit(s: Split, tail: Bytes): Bytes {
    PutU16(s.percent, PutKey(s.splitAddr, tail))
  }

  function GetSplit(b: Bytes): Option<(Split, Bytes)> {
    var (percent, b1) :- GetU16(b);
    var (splitAddr, b2) :- GetKey(b1);
    Some((Split(percent, splitAddr), b2))
  }

  lemma SplitRead(s: Split, tail: Bytes)
    ensures GetSplit(PutSplit(s, tail)) == Some((s, tail))
    ensures PutSplit(s, tail) == PutSplit(s, []) + tail
  {
    U16Laws(s.percent, PutKey(s.splitAddr, tail), []);
    U16Laws(s.percent, PutKey(s.splitAddr, []), []);
    KeyLaws(s.splitAddr, tail, []);
  }

  lemma SplitCanonical(b: Bytes)
    requires GetSplit(b).Some?
    ensures b == PutSplit(GetSplit(b).value.0, GetSplit(b).value.1)
  {
    U16Laws(0, [], b);
    KeyLaws(NO_KEY, [], GetU16(b).value.1);
  }

  // ---------------------------------------------------------------- keys in a row

  function PutKeys(ks: seq<Key>, tail: Bytes): Bytes {
    if ks == [] then tail else PutKey(ks[0], PutKeys(ks[1..], tail))
  }

  function GetKeys(n: nat, b: Bytes): (r: Option<(seq<Key>, Bytes)>)
    ensures r.Some? ==> |r.value.0| == n
  {
    if n == 0 then Some(([], b))
    else
      var (k, b1) :- GetKey(b);
      var (ks, b2) :- GetKeys(n - 1, b1);
      Some(([k] + ks, b2))
  }

  lemma {:induction false} KeysRead(ks: seq<Key>, tail: Bytes)
    ensures GetKeys(|ks|, PutKeys(ks, tail)) == Some((ks, tail))
    ensures |PutKeys(ks, tail)| == 32 * |ks| + |tail|
  {
    if ks != [] {
      KeysRead(ks[1..], tail);
      KeyLaws(ks[0], PutKeys(ks[1..], tail), []);
      assert [ks[0]] + ks[1..] == ks;
    }
  }

  lemma {:induction false} KeysAppend(ks: seq<Key>, tail: Bytes)
    ensures PutKeys(ks, tail) == PutKeys(ks, []) + tail
  {
    if ks != [] {
      KeysAppend(ks[1..], tail);
      assert ks[0] + (PutKeys(ks[1..], []) + tail) == ks[0] + PutKeys(ks[1..], []) + tail;
    }
  }

  lemma {:induction false} KeysCanonical(n: nat, b: Bytes)
    requires GetKeys(n, b).Some?
    ensures b == PutKeys(GetKeys(n, b).value.0, GetKeys(n, b).value.1)
  {
    if n > 0 {
      KeyLaws(NO_KEY, [], b);
      var (k, b1) := GetKey(b).value;
      KeysCanonical(n - 1, b1);
      assert ([k] + GetKeys(n - 1, b1).value.0)[1..] == GetKeys(n - 1, b1).value.0;
    }
  }

  // ---------------------------------------------------------------- version 4

  function HeadKeys(h: Fixed): seq<Key> {
    [h.token, h.owner, h.admin, h.commissionAddr, h.treasuryAddr, h.swapState]
  }

  function PutHead(h: Fixed, tail: Bytes): Bytes {
    PutKeys(HeadKeys(h), PutU64(h.sold, PutVest(h.vest, tail)))
  }

  function GetHead(b: Bytes): Option<(Fixed, Bytes)> {
    var (ks, b1) :- GetKeys(6, b);
    var (sold, b2) :- GetU64(b1);
    var (vest, b3) :- GetVest(b2);
    Some((Fixed(ks[0], ks[1], ks[2], ks[3], ks[4], ks[5], sold, vest), b3))
  }

  lemma HeadRead(h: Fixed, tail: Bytes)
    ensures GetHead(PutHead(h, tail)) == Some((h, tail))
  {
    KeysRead(HeadKeys(h), PutU64(h.sold, PutVest(h.vest, tail)));
    U64Laws(h.sold, PutVest(h.vest, tail), []);
    VestRead(h.vest, tail);
  }

  lemma SoldAndVestAppend(sold: u64, vest: Vested, tail: Bytes)
    ensures PutU64(sold, PutVest(vest, tail)) == PutU64(sold, PutVest(vest, [])) + tail
  {
    U64Laws(sold, PutVest(vest, tail), []);
    U64Laws(sold, PutVest(vest, []), []);
    VestRead(vest, tail);
    AppendBoth(PutU64(sold, []), PutVest(vest, []), tail);
  }

  lemma HeadAppend(h: Fixed, tail: Bytes)
    ensures PutHead(h, tail) == PutHead(h, []) + tail
  {
    var inner := PutU64(h.sold, PutVest(h.vest, []));
    SoldAndVestAppend(h.sold, h.vest, tail);
    KeysAppend(HeadKeys(h), inner + tail);
    KeysAppend(HeadKeys(h), inner);
    AppendBoth(PutKeys(HeadKeys(h), []), inner, tail);
  }

  lemma HeadCanonical(b: Bytes)
    requires GetHead(b).Some?
    ensures b == PutHead(GetHead(b).value.0, GetHead(b).value.1)
  {
    KeysCanonical(6, b);
    var (ks, b1) := GetKeys(6, b).value;
    U64Laws(0, [], b1);
    VestCanonical(GetU64(b1).value.1);
    assert HeadKeys(GetHead(b).value.0) == ks;
  }

  /** The round in progress and the number of completed ones close the layout. */
  function PutRounds(currentRound: Option<Key>, completed: u64, tail: Bytes): Bytes {
    PutOptional(PutKey, currentRound, PutU64(completed, tail))
  }

  function GetRounds(b: Bytes): Option<(Option<Key>, u64, Bytes)> {
    var (currentRound, b1) :- GetOptional(GetKey, b);
    var (completed, b2) :- GetU64(b1);
    Some((currentRound, completed, b2))
  }

  lemma OptionalKeyRead(k: Option<Key>, tail: Bytes)
    ensures GetOptional(GetKey, PutOptional(PutKey, k, tail)) == Some((k, tail))
    ensures PutOptional(PutKey, k, tail) == PutOptional(PutKey, k, []) + tail
  {
    if k.Some? {
      KeyLaws(k.value, tail, []);
    }
    OptionalRead(PutKey, GetKey, k, tail);
  }

  lemma RoundsRead(currentRound: Option<Key>, completed: u64, tail: Bytes)
    ensures GetRounds(PutRounds(currentRound, completed, tail)) == Some((currentRound, completed, tail))
  {
    OptionalKeyRead(currentRound, PutU64(completed, tail));
    U64Laws(completed, tail, []);
  }

  lemma RoundsAppend(currentRound: Option<Key>, completed: u64, tail: Bytes)
    ensures PutRounds(currentRound, completed, tail) == PutRounds(currentRound, completed, []) + tail
  {
    OptionalKeyRead(currentRound, PutU64(completed, tail));
    OptionalKeyRead(currentRound, PutU64(completed, []));
    U64Laws(completed, tail, []);
    AppendBoth(PutOptional(PutKey, currentRound, []), PutU64(completed, []), tail);
  }

  lemma RoundsCanonical(b: Bytes)
    requires GetRounds(b).Some?
    ensures var (k, c, rest) := GetRounds(b).value; b == PutRounds(k, c, rest)
  {
    if b[0] == 1 {
      KeyLaws(NO_KEY, [], b[1..]);
    }
    OptionalCanonical(PutKey, GetKey, b);
    U64Laws(0, [], GetOptional(GetKey, b).value.1);
  }

  function PutV4(s: ContractStateV4, tail: Bytes): Bytes {
    PutHead(s.head, PutOptional(PutDropV2, s.drop, PutRounds(s.currentRound, s.completedRoundsCount, tail)))
  }

  function GetV4(b: Bytes): Option<(ContractStateV4, Bytes)> {
    var (head, b1) :- GetHead(b);
    var (drop, b2) :- GetOptional(GetDropV2, b1);
    var (currentRound, completed, b3) :- GetRounds(b2);
    Some((ContractStateV4(head, drop, currentRound, completed), b3))
  }

  lemma OptionalDropV2Read(d: Option<DropV2>, tail: Bytes)
    ensures GetOptional(GetDropV2, PutOptional(PutDropV2, d, tail)) == Some((d, tail))
    ensures PutOptional(PutDropV2, d, tail) == PutOptional(PutDropV2, d, []) + tail
  {
    if d.Some? {
      DropV2Read(d.value, tail);
      DropV2Append(d.value, tail);
    }
    OptionalRead(PutDropV2, GetDropV2, d, tail);
  }

  lemma V4Read(s: ContractStateV4, tail: Bytes)
    ensures GetV4(PutV4(s, tail)) == Some((s, tail))
  {
    var rounds := PutRounds(s.currentRound, s.completedRoundsCount, tail);
    RoundsRead(s.currentRound, s.completedRoundsCount, tail);
    OptionalDropV2Read(s.drop, rounds);
    HeadRead(s.head, PutOptional(PutDropV2, s.drop, rounds));
  }

  lemma DropAndRoundsAppend(s: ContractStateV4, tail: Bytes)
    ensures PutOptional(PutDropV2, s.drop, PutRounds(s.currentRound, s.completedRoundsCount, tail))
         == PutOptional(PutDropV2, s.drop, PutRounds(s.currentRound, s.completedRoundsCount, [])) + tail
  {
    var alone := PutRounds(s.currentRound, s.completedRoundsCount, []);
    RoundsAppend(s.currentRound, s.completedRoundsCount, tail);
    OptionalDropV2Read(s.drop, alone + tail);
    OptionalDropV2Read(s.drop, alone);
    AppendBoth(PutOptional(PutDropV2, s.drop, []), alone, tail);
  }

  lemma V4Append(s: ContractStateV4, tail: Bytes)
    ensures PutV4(s, tail) == PutV4(s, []) + tail
  {
    var inner := PutOptional(PutDropV2, s.drop, PutRounds(s.currentRound, s.completedRoundsCount, []));
    DropAndRoundsAppend(s, tail);
    HeadAppend(s.head, inner + tail);
    HeadAppend(s.head, inner);
    AppendBoth(PutHead(s.head, []), inner, tail);
  }

  lemma V4Canonical(b: Bytes)
    requires GetV4(b).Some?
    ensures b == PutV4(GetV4(b).value.0, GetV4(b).value.1)
  {
    HeadCanonical(b);
    var b1 := GetHead(b).value.1;
    if b1[0] == 1 {
      DropV2Canonical(b1[1..]);
    }
    OptionalCanonical(PutDropV2, GetDropV2, b1);
    RoundsCanonical(GetOptional(GetDropV2, b1).value.1);
  }

  // ---------------------------------------------------------------- version 3

  function PutV3(s: ContractStateV3, tail: Bytes): Bytes {
    PutKeys([s.token, s.owner, s.admin, s.commissionAddr],
            PutU64(s.sold,
                   PutVest(s.vest, PutOptional(PutDropV1, s.drop, PutOptional(PutSplit, s.additionalSplit, tail)))))
  }

  function GetV3(b: Bytes): Option<(ContractStateV3, Bytes)> {
    var (ks, b1) :- GetKeys(4, b);
    var (sold, b2) :- GetU64(b1);
    var (vest, b3) :- GetVest(b2);
    var (drop, b4) :- GetOptional(GetDropV1, b3);
    var (split, b5) :- GetOptional(GetSplit, b4);
    Some((ContractStateV3(ks[0], ks[1], ks[2], ks[3], sold, vest, drop, split), b5))
  }

  lemma OptionalDropV1Read(d: Option<DropV1>, tail: Bytes)
    ensures GetOptional(GetDropV1, PutOptional(PutDropV1, d, tail)) == Some((d, tail))
    ensures PutOptional(PutDropV1, d, tail) == PutOptional(PutDropV1, d, []) + tail
  {
    if d.Some? {
      DropV1Read(d.value, tail);
    }
    OptionalRead(PutDropV1, GetDropV1, d, tail);
  }

  lemma OptionalSplitRead(s: Option<Split>, tail: Bytes)
    ensures GetOptional(GetSplit, PutOptional(PutSplit, s, tail)) == Some((s, tail))
    ensures PutOptional(PutSplit, s, tail) == PutOptional(PutSplit, s, []) + tail
  {
    if s.Some? {
      SplitRead(s.value, tail);
    }
    OptionalRead(PutSplit, GetSplit, s, tail);
  }

  lemma V3Read(s: ContractStateV3, tail: Bytes)
    ensures GetV3(PutV3(s, tail)) == Some((s, tail))
  {
    var split := PutOptional(PutSplit, s.additionalSplit, tail);
    var drop := PutOptional(PutDropV1, s.drop, split);
    OptionalSplitRead(s.additionalSplit, tail);
    OptionalDropV1Read(s.drop, split);
    VestRead(s.vest, drop);
    U64Laws(s.sold, PutVest(s.vest, drop), []);
    KeysRead([s.token, s.owner, s.admin, s.commissionAddr], PutU64(s.sold, PutVest(s.vest, drop)));
  }

  lemma DropAndSplitAppend(s: ContractStateV3, tail: Bytes)
    ensures PutOptional(PutDropV1, s.drop, PutOptional(PutSplit, s.additionalSplit, tail))
         == PutOptional(PutDropV1, s.drop, PutOptional(PutSplit, s.additionalSplit, [])) + tail
  {
    var alone := PutOptional(PutSplit, s.additionalSplit, []);
    OptionalSplitRead(s.additionalSplit, tail);
    OptionalDropV1Read(s.drop, alone + tail);
    OptionalDropV1Read(s.drop, alone);
    AppendBoth(PutOptional(PutDropV1, s.drop, []), alone, tail);
  }

  lemma V3Append(s: ContractStateV3, tail: Bytes)
    ensures PutV3(s, tail) == PutV3(s, []) + tail
  {
    var keys := [s.token, s.owner, s.admin, s.commissionAddr];
    var options := PutOptional(PutDropV1, s.drop, PutOptional(PutSplit, s.additionalSplit, []));
    DropAndSplitAppend(s, tail);
    SoldAndVestAppend(s.sold, s.vest, options + tail);
    SoldAndVestAppend(s.sold, s.vest, options);
    var before := PutU64(s.sold, PutVest(s.vest, []));
    AppendBoth(before, options, tail);
    KeysAppend(keys, before + options + tail);
    KeysAppend(keys, before + options);
    AppendBoth(PutKeys(keys, []), before + options, tail);
  }

  lemma V3Canonical(b: Bytes)
    requires GetV3(b).Some?
    ensures b == PutV3(GetV3(b).value.0, GetV3(b).value.1)
  {
    KeysCanonical(4, b);
    var (ks, b1) := GetKeys(4, b).value;
    assert ks == [ks[0], ks[1], ks[2], ks[3]];
    U64Laws(0, [], b1);
    var b2 := GetU64(b1).value.1;
    VestCanonical(b2);
    var b3 := GetVest(b2).value.1;
    if b3[0] == 1 {
      DropV1Canonical(b3[1..]);
    }
    OptionalCanonical(PutDropV1, GetDropV1, b3);
    var b4 := GetOptional(GetDropV1, b3).value.1;
    if b4[0] == 1 {
      SplitCanonical(b4[1..]);
    }
    OptionalCanonical(PutSplit, GetSplit, b4);
  }
}
