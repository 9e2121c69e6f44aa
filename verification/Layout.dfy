/**
 Where every field of the state account lies, in bytes from the start of the account data. The encoders write the
 fields in this order and nowhere else, and leave the bytes behind the encoding alone.
 */
module Layout {
  import opened Wrappers
  import opened MachineInts
  import opened Vesting
  import opened Borsh
  import opened Entity
  import opened ContractState
  import opened Migration

  // ---------------------------------------------------------------- reading at an offset

  function KeyAt(data: Bytes, at: nat): Key
    requires at + 32 <= |data|
  {
    data[at..at + 32]
  }

  /** Eight bytes as an unsigned number. */
  function U64At(data: Bytes, at: nat): u64
    requires at + 8 <= |data|
  {
    EightBytes();
    LittleEndianCanonical(data[at..at + 8]);
    FromLittleEndian(data[at..at + 8])
  }

  /** Eight bytes in two's complement: the number of that residue modulo 2^64. */
  ghost predicate I64IsAt(data: Bytes, at: nat, v: i64)
    requires at + 8 <= |data|
  {
    U64At(data, at) == v % (U64_MAX + 1)
  }

  lemma TakeAt(data: Bytes, at: nat, n: nat)
    requires at + n <= |data|
    ensures Take(data[at..], n) == Some((data[at..at + n], data[at + n..]))
  {
    assert data[at..][..n] == data[at..at + n] && data[at..][n..] == data[at + n..];
  }

  lemma U64Read(data: Bytes, at: nat)
    requires at + 8 <= |data|
    ensures GetU64(data[at..]) == Some((U64At(data, at), data[at + 8..]))
  {
    TakeAt(data, at, 8);
  }

  lemma I64Read(data: Bytes, at: nat)
    requires at + 8 <= |data|
    ensures GetI64(data[at..]).Some? && GetI64(data[at..]).value.1 == data[at + 8..]
    ensures I64IsAt(data, at, GetI64(data[at..]).value.0)
  {
    U64Read(data, at);
  }

  lemma ByteRead(data: Bytes, at: nat)
    requires at < |data|
    ensures GetU8(data[at..]) == Some((data[at], data[at + 1..]))
    ensures data[at] <= 1 ==> GetTag(data[at..]) == Some((data[at] == 1, data[at + 1..]))
    ensures data[at] > 1 ==> GetTag(data[at..]) == None
  {
    assert data[at..][1..] == data[at + 1..];
  }

  /** Consecutive keys. */
  ghost function KeysAt(data: Bytes, at: nat, n: nat): seq<Key>
    requires at + 32 * n <= |data|
  {
    seq(n, i requires 0 <= i < n => KeyAt(data, at + 32 * i))
  }

  lemma {:induction false} KeysReadAt(data: Bytes, at: nat, n: nat)
    requires at + 32 * n <= |data|
    ensures GetKeys(n, data[at..]) == Some((KeysAt(data, at, n), data[at + 32 * n..]))
    decreases n
  {
    if n == 0 {
      assert KeysAt(data, at, n) == [];
    } else {
      TakeAt(data, at, 32);
      KeysReadAt(data, at + 32, n - 1);
      assert KeysAt(data, at, n)[0] == KeyAt(data, at);
      assert KeysAt(data, at, n)[1..] == KeysAt(data, at + 32, n - 1);
      assert [KeyAt(data, at)] + KeysAt(data, at, n)[1..] == KeysAt(data, at, n);
    }
  }

  lemma VestReadAt(data: Bytes, at: nat)
    requires at + 9 <= |data|
    ensures GetVest(data[at..]).Some? && GetVest(data[at..]).value.1 == data[at + 9..]
    ensures VestIsAt(data, at, GetVest(data[at..]).value.0)
  {
    I64Read(data, at);
    ByteRead(data, at + 8);
  }

  ghost predicate VestIsAt(data: Bytes, at: nat, v: Vested)
    requires at + 9 <= |data|
  {
    I64IsAt(data, at, v.deployedAt) && data[at + 8] == v.vestedPeriods
  }

  // ---------------------------------------------------------------- version 4

  ghost predicate HeadIsAt(data: Bytes, h: Fixed)
    requires 210 <= |data|
  {
    && data[1..33] == h.token && data[33..65] == h.owner && data[65..97] == h.admin
    && data[97..129] == h.commissionAddr && data[129..161] == h.treasuryAddr && data[161..193] == h.swapState
    && U64At(data, 193) == h.sold && VestIsAt(data, 201, h.vest)
  }

  lemma HeadReadAt(data: Bytes)
    requires 210 <= |data|
    ensures GetHead(data[1..]).Some? && GetHead(data[1..]).value.1 == data[210..]
    ensures HeadIsAt(data, GetHead(data[1..]).value.0)
  {
    KeysReadAt(data, 1, 6);
    var ks := KeysAt(data, 1, 6);
    assert ks[0] == data[1..33] && ks[1] == data[33..65] && ks[2] == data[65..97];
    assert ks[3] == data[97..129] && ks[4] == data[129..161] && ks[5] == data[161..193];
    U64Read(data, 193);
    VestReadAt(data, 201);
  }

  ghost predicate DropV2IsAt(data: Bytes, at: nat, d: DropV2)
    requires at + 48 <= |data|
  {
    && U64At(data, at) == d.id && U64At(data, at + 8) == d.price && U64At(data, at + 16) == d.amount
    && I64IsAt(data, at + 24, d.createdAt) && I64IsAt(data, at + 32, d.startDate) && I64IsAt(data, at + 40, d.endDate)
  }

  lemma DropV2ReadAt(data: Bytes, at: nat)
    requires at + 48 <= |data|
    ensures GetDropV2(data[at..]).Some? && GetDropV2(data[at..]).value.1 == data[at + 48..]
    ensures DropV2IsAt(data, at, GetDropV2(data[at..]).value.0)
  {
    U64Read(data, at);
    U64Read(data, at + 8);
    U64Read(data, at + 16);
    I64Read(data, at + 24);
    I64Read(data, at + 32);
    I64Read(data, at + 40);
  }

  /** The drop, its tag at byte 210. */
  ghost predicate DropIsAt(data: Bytes, drop: Option<DropV2>)
    requires 259 <= |data|
  {
    match drop
    case None => data[210] == 0
    case Some(d) => data[210] == 1 && DropV2IsAt(data, 211, d)
  }

  /** Where the round in progress starts. */
  function RoundsOffset(drop: Option<DropV2>): nat {
    if drop.Some? then 259 else 211
  }

  lemma DropReadAt(data: Bytes)
    requires 259 <= |data| && GetOptional(GetDropV2, data[210..]).Some?
    ensures var (drop, rest) := GetOptional(GetDropV2, data[210..]).value;
            DropIsAt(data, drop) && rest == data[RoundsOffset(drop)..]
  {
    ByteRead(data, 210);
    DropV2ReadAt(data, 211);
  }

  /** The round in progress and the completed ones, the tag at byte `at`. */
  ghost predicate RoundsAreAt(data: Bytes, at: nat, currentRound: Option<Key>, completed: u64)
    requires at + 41 <= |data|
  {
    match currentRound
    case None => data[at] == 0 && U64At(data, at + 1) == completed
    case Some(k) => data[at] == 1 && data[at + 1..at + 33] == k && U64At(data, at + 33) == completed
  }

  lemma RoundsReadAt(data: Bytes, at: nat)
    requires at + 41 <= |data| && GetRounds(data[at..]).Some?
    ensures var (currentRound, completed, _) := GetRounds(data[at..]).value;
            RoundsAreAt(data, at, currentRound, completed)
  {
    ByteRead(data, at);
    if data[at] == 1 {
      TakeAt(data, at + 1, 32);
      U64Read(data, at + 33);
    } else if data[at] == 0 {
      U64Read(data, at + 1);
    }
  }

  /** All fields of the current layout. */
  ghost predicate V4IsAt(data: Bytes, s: ContractStateV4)
    requires 300 <= |data|
  {
    && HeadIsAt(data, s.head) && DropIsAt(data, s.drop)
    && RoundsAreAt(data, RoundsOffset(s.drop), s.currentRound, s.completedRoundsCount)
  }

  lemma V4ReadAt(data: Bytes)
    requires 300 <= |data| && GetV4(data[1..]).Some?
    ensures V4IsAt(data, GetV4(data[1..]).value.0)
  {
    HeadReadAt(data);
    DropReadAt(data);
    RoundsReadAt(data, RoundsOffset(GetV4(data[1..]).value.0.drop));
  }

  /** Writing leaves what lies behind the encoding as it was. */
  lemma StaleBytesStay<T>(e: EntityType<T>, x: T, before: Bytes, i: nat)
    requires Serialized(e, x, before).Success? && 1 + |e.encode(x)| <= i < |before|
    ensures |Serialized(e, x, before).value| == |before| && Serialized(e, x, before).value[i] == before[i]
  {
  }

  /**
   The current layout, byte by byte: what is written to an account has magic 0x45, the six addresses, the tokens sold,
   the vesting state, the drop and the rounds at these offsets; what can be read lies there as well.
   */
  lemma V4Layout(s: ContractStateV4, before: Bytes)
    requires Serialized(V4Type(), s, before).Success?
    ensures var data := Serialized(V4Type(), s, before).value;
            && |data| == |before| && 300 <= |data| && data[0] == 0x45 && V4IsAt(data, s)
            && (forall i :: RoundsOffset(s.drop) + (if s.currentRound.Some? then 41 else 9) <= i < |data| ==>
                  data[i] == before[i])
  {
    var data := Serialized(V4Type(), s, before).value;
    V4IsLawful();
    RoundTrip(V4Type(), s, before);
    V4ReadAt(data);
    RoundsLength(s.currentRound, s.completedRoundsCount, []);
    HeadLength(s.head, PutOptional(PutDropV2, s.drop, PutRounds(s.currentRound, s.completedRoundsCount, [])));
    forall i | RoundsOffset(s.drop) + (if s.currentRound.Some? then 41 else 9) <= i < |data|
      ensures data[i] == before[i]
    {
      StaleBytesStay(V4Type(), s, before, i);
    }
  }

  lemma V4LayoutRead(data: Bytes)
    requires DeserializeFrom(V4Type(), data).Success?
    ensures 300 <= |data| && data[0] == 0x45 && V4IsAt(data, DeserializeFrom(V4Type(), data).value)
  {
    V4ReadAt(data);
  }

  // ---------------------------------------------------------------- version 3

  ghost predicate DropV1IsAt(data: Bytes, d: DropV1)
    requires 171 <= |data|
  {
    U64At(data, 147) == d.price && I64IsAt(data, 155, d.startDate) && I64IsAt(data, 163, d.endDate)
  }

  /** The split, its tag at byte `at`. */
  ghost predicate SplitIsAt(data: Bytes, at: nat, split: Option<Split>)
    requires at + 35 <= |data|
  {
    match split
    case None => data[at] == 0
    case Some(s) =>
      && data[at] == 1 && data[at + 1] + 256 * (data[at + 2] as int) == s.percent
      && data[at + 3..at + 35] == s.splitAddr
  }

  ghost predicate V3IsAt(data: Bytes, s: ContractStateV3)
    requires 206 <= |data|
  {
    && data[1..33] == s.token && data[33..65] == s.owner && data[65..97] == s.admin && data[97..129] == s.commissionAddr
    && U64At(data, 129) == s.sold && VestIsAt(data, 137, s.vest)
    && data[146] == (if s.drop.Some? then 1 else 0) && (s.drop.Some? ==> DropV1IsAt(data, s.drop.value))
    && SplitIsAt(data, if s.drop.Some? then 171 else 147, s.additionalSplit)
  }

  lemma DropV1ReadAt(data: Bytes)
    requires 171 <= |data|
    ensures GetDropV1(data[147..]).Some? && GetDropV1(data[147..]).value.1 == data[171..]
    ensures DropV1IsAt(data, GetDropV1(data[147..]).value.0)
  {
    U64Read(data, 147);
    I64Read(data, 155);
    I64Read(data, 163);
  }

  lemma TwoBytes(b: Bytes)
    requires |b| == 2
    ensures FromLittleEndian(b) == b[0] + 256 * (b[1] as int)
  {
    assert b[1..] == [b[1]];
    assert FromLittleEndian([b[1]]) == (b[1] as int) + 256 * FromLittleEndian([b[1]][1..]);
  }

  lemma SplitReadAt(data: Bytes, at: nat)
    requires at + 35 <= |data| && GetOptional(GetSplit, data[at..]).Some?
    ensures SplitIsAt(data, at, GetOptional(GetSplit, data[at..]).value.0)
  {
    ByteRead(data, at);
    if data[at] == 1 {
      TakeAt(data, at + 1, 2);
      TwoBytes(data[at + 1..at + 3]);
      TakeAt(data, at + 3, 32);
    }
  }

  lemma V3ReadAt(data: Bytes)
    requires 206 <= |data| && GetV3(data[1..]).Some?
    ensures V3IsAt(data, GetV3(data[1..]).value.0)
  {
    KeysReadAt(data, 1, 4);
    var ks := KeysAt(data, 1, 4);
    assert ks[0] == data[1..33] && ks[1] == data[33..65] && ks[2] == data[65..97] && ks[3] == data[97..129];
    U64Read(data, 129);
    VestReadAt(data, 137);
    ByteRead(data, 146);
    DropV1ReadAt(data);
    SplitReadAt(data, if data[146] == 1 then 171 else 147);
  }

  /** The old layout, byte by byte. */
  lemma V3Layout(s: ContractStateV3, before: Bytes)
    requires Serialized(V3Type(), s, before).Success?
    ensures var data := Serialized(V3Type(), s, before).value;
            |data| == |before| && 206 <= |data| && data[0] == 0x44 && V3IsAt(data, s)
  {
    V3IsLawful();
    RoundTrip(V3Type(), s, before);
    V3ReadAt(Serialized(V3Type(), s, before).value);
  }

  lemma V3LayoutRead(data: Bytes)
    requires DeserializeFrom(V3Type(), data).Success?
    ensures 206 <= |data| && data[0] == 0x44 && V3IsAt(data, DeserializeFrom(V3Type(), data).value)
  {
    V3ReadAt(data);
  }
}
