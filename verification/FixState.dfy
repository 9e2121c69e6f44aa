/**
 The repair that runs before every instruction of the human contract (human/src/lib.rs): a state whose tail was
 left over from an older layout gets that tail zeroed. Its byte offsets are worked out by hand in the source.
 */
module FixState {
  import opened Wrappers
  import opened MachineInts
  import opened Borsh
  import opened Entity
  import opened ContractState
  import opened Migration

  const DROP_OPTION_OFFSET: nat := 210
  const MAX_SANE_ROUNDS: nat := 1000

  function CurrentRoundOffset(data: Bytes): nat
    requires DROP_OPTION_OFFSET < |data|
  {
    if data[DROP_OPTION_OFFSET] == 1 then 211 + 48 else 211
  }

  function CompletedRoundsOffset(data: Bytes): nat
    requires DROP_OPTION_OFFSET < |data| && CurrentRoundOffset(data) < |data|
  {
    var round := CurrentRoundOffset(data);
    if data[round] == 1 then round + 1 + 32 else round + 1
  }

  function Zeros(n: nat): Bytes {
    seq(n, _ => 0)
  }

  /** The account data after `try_fix_state`; `None` is an index out of range. */
  function Repaired(data: Bytes): Option<Bytes> {
    if data == [] || data[0] != V4_MAGIC then Some(data)
    else if |data| <= DROP_OPTION_OFFSET || |data| <= CurrentRoundOffset(data) then None
    else
      var round, completed := CurrentRoundOffset(data), CompletedRoundsOffset(data);
      if |data| < completed + 8 then None
      else if data[round] > 1 || FromLittleEndian(data[completed..completed + 8]) > MAX_SANE_ROUNDS then
        Some(data[..round] + Zeros(|data| - round))
      else Some(data)
  }

  method TryFixState(data: array<u8>) returns (r: Result<(), ProgramError>)
    modifies data
    ensures match Repaired(old(data[..]))
            case Some(after) => r == Success(()) && data[..] == after
            case None => r == Failure(Panic) && data[..] == old(data[..])
  {
    if data.Length == 0 || data[0] != V4_MAGIC {
      return Success(());
    }
    if data.Length <= DROP_OPTION_OFFSET {
      return Failure(Panic);
    }
    var currentRoundOffset := 211;
    if data[DROP_OPTION_OFFSET] == 1 {
      currentRoundOffset := currentRoundOffset + 48;
    }
    if data.Length <= currentRoundOffset {
      return Failure(Panic);
    }
    var completedRoundsOffset := currentRoundOffset + 1;
    if data[currentRoundOffset] == 1 {
      completedRoundsOffset := currentRoundOffset + 1 + 32;
    }
    if data.Length < completedRoundsOffset + 8 {
      return Failure(Panic);
    }
    var completedRoundsCount := FromLittleEndian(data[completedRoundsOffset..completedRoundsOffset + 8]);
    assert data[completedRoundsOffset..completedRoundsOffset + 8]
        == data[..][completedRoundsOffset..completedRoundsOffset + 8];
    if data[currentRoundOffset] > 1 || completedRoundsCount > MAX_SANE_ROUNDS {
      ghost var before := data[..];
      forall i | currentRoundOffset <= i < data.Length {
        data[i] := 0;
      }
      assert data[..] == before[..currentRoundOffset] + Zeros(data.Length - currentRoundOffset);
    }
    return Success(());
  }

  // ---------------------------------------------------------------- the offsets agree with the encoder

  /** The leading fields take 209 bytes and can be read from any that many. */
  lemma HeadIsTotal(b: Bytes)
    requires 209 <= |b|
    ensures GetHead(b).Some? && GetHead(b).value.1 == b[209..]
  {
    KeysAreTotal(6, b);
    var b1 := GetKeys(6, b).value.1;
    assert GetHead(b).Some?;
    HeadCanonical(b);
    HeadLength(GetHead(b).value.0, GetHead(b).value.1);
    HeadAppend(GetHead(b).value.0, GetHead(b).value.1);
    HeadLength(GetHead(b).value.0, []);
  }

  lemma {:induction false} KeysAreTotal(n: nat, b: Bytes)
    requires 32 * n <= |b|
    ensures GetKeys(n, b).Some? && |GetKeys(n, b).value.1| == |b| - 32 * n
  {
    if n > 0 {
      KeysAreTotal(n - 1, b[32..]);
    }
  }

  lemma DropIsTotal(b: Bytes)
    requires 48 <= |b|
    ensures GetDropV2(b).Some? && GetDropV2(b).value.1 == b[48..]
  {
    assert b[8..][8..] == b[16..] && b[16..][8..] == b[24..] && b[24..][8..] == b[32..];
    assert b[32..][8..] == b[40..] && b[40..][8..] == b[48..];
  }

  /** The drop, read where the repair looks for its tag. */
  lemma DropAtOffset(b: Bytes)
    requires 49 <= |b|
    ensures GetOptional(GetDropV2, b).Some? <==> b[0] <= 1
    ensures b[0] <= 1 ==> GetOptional(GetDropV2, b).value.1 == b[(if b[0] == 1 then 49 else 1)..]
  {
    DropIsTotal(b[1..]);
    assert b[1..][48..] == b[49..];
  }

  /** The round in progress and the count, read where the repair looks for them. */
  lemma RoundsAtOffset(b: Bytes)
    requires 41 <= |b|
    ensures GetRounds(b).Some? <==> b[0] <= 1
    ensures b[0] <= 1 ==>
              var completed := if b[0] == 1 then 33 else 1;
              GetRounds(b).value.1 == FromLittleEndian(b[completed..completed + 8])
  {
    if b[0] <= 1 {
      var completed := if b[0] == 1 then 33 else 1;
      assert b[1..][32..] == b[33..];
      assert b[completed..][..8] == b[completed..completed + 8];
    }
  }

  /** The payload from the round in progress on. */
  function RoundsPart(data: Bytes): Bytes
    requires 300 <= |data|
  {
    data[CurrentRoundOffset(data)..]
  }

  lemma DropByOffset(data: Bytes)
    requires 300 <= |data|
    ensures GetHead(data[1..]).Some? && GetHead(data[1..]).value.1 == data[DROP_OPTION_OFFSET..]
    ensures GetOptional(GetDropV2, data[DROP_OPTION_OFFSET..]).Some? <==> data[DROP_OPTION_OFFSET] <= 1
    ensures data[DROP_OPTION_OFFSET] <= 1 ==>
              GetOptional(GetDropV2, data[DROP_OPTION_OFFSET..]).value.1 == RoundsPart(data)
  {
    HeadIsTotal(data[1..]);
    assert data[1..][209..] == data[210..];
    DropAtOffset(data[210..]);
    assert data[210..][1..] == data[211..] && data[210..][49..] == data[259..];
  }

  lemma SliceOfSlice(b: Bytes, start: nat, from: nat, to: nat)
    requires from <= to && start + to <= |b|
    ensures b[start..][from..to] == b[start + from..start + to]
  {
    forall i | 0 <= i < to - from
      ensures b[start..][from..to][i] == b[start + from..start + to][i]
    {
    }
  }

  lemma RoundsByOffset(data: Bytes)
    requires 300 <= |data|
    ensures GetRounds(RoundsPart(data)).Some? <==> data[CurrentRoundOffset(data)] <= 1
    ensures GetRounds(RoundsPart(data)).Some? ==>
              && var completed := CompletedRoundsOffset(data);
              && GetRounds(RoundsPart(data)).value.1 == FromLittleEndian(data[completed..completed + 8])
              && (GetRounds(RoundsPart(data)).value.0.Some? <==> data[CurrentRoundOffset(data)] == 1)
  {
    var round := CurrentRoundOffset(data);
    var part := data[round..];
    RoundsAtOffset(part);
    SliceOfSlice(data, round, 1, 9);
    SliceOfSlice(data, round, 33, 41);
  }

  /**
   A buffer can be read exactly when both option tags are in order, and the fields are where the repair expects
   them.
   */
  lemma ReadsByOffset(data: Bytes)
    requires 300 <= |data|
    ensures GetHead(data[1..]).Some?
    ensures GetV4(data[1..]).Some? <==>
              data[DROP_OPTION_OFFSET] <= 1 && data[CurrentRoundOffset(data)] <= 1
    ensures data[DROP_OPTION_OFFSET] <= 1 ==> GetOptional(GetDropV2, data[DROP_OPTION_OFFSET..]).Some?
    ensures GetV4(data[1..]).Some? ==>
              && var s := GetV4(data[1..]).value.0;
              && s.head == GetHead(data[1..]).value.0
              && s.drop == GetOptional(GetDropV2, data[DROP_OPTION_OFFSET..]).value.0
              && s.completedRoundsCount
                 == FromLittleEndian(data[CompletedRoundsOffset(data)..CompletedRoundsOffset(data) + 8])
              && (s.currentRound.Some? <==> data[CurrentRoundOffset(data)] == 1)
  {
    DropByOffset(data);
    RoundsByOffset(data);
  }

  // ---------------------------------------------------------------- what the repair does

  /** The test the repair makes: an impossible option tag, or more rounds than there can have been. */
  predicate Broken(data: Bytes)
    requires 300 <= |data|
  {
    var round, completed := CurrentRoundOffset(data), CompletedRoundsOffset(data);
    data[round] > 1 || FromLittleEndian(data[completed..completed + 8]) > MAX_SANE_ROUNDS
  }

  lemma {:induction false} ZerosAreZero(n: nat)
    ensures FromLittleEndian(Zeros(n)) == 0
  {
    if n > 0 {
      assert Zeros(n)[1..] == Zeros(n - 1);
      ZerosAreZero(n - 1);
    }
  }

  lemma {:induction false} ZeroMeansZeros(b: Bytes)
    ensures FromLittleEndian(b) == 0 <==> forall i :: 0 <= i < |b| ==> b[i] == 0
  {
    if b != [] {
      ZeroMeansZeros(b[1..]);
      assert forall i :: 0 < i < |b| ==> b[i] == b[1..][i - 1];
    }
  }

  /** A count of at most 1000, in bytes: the two lowest are that small and the six others are zero. */
  ghost predicate SaneCountAt(data: Bytes, at: nat)
    requires at + 8 <= |data|
  {
    && data[at] + 256 * (data[at + 1] as int) <= 1000
    && (forall i :: at + 2 <= i < at + 8 ==> data[i] == 0)
  }

  lemma SaneCount(data: Bytes, at: nat)
    requires at + 8 <= |data|
    ensures FromLittleEndian(data[at..at + 8]) <= MAX_SANE_ROUNDS <==> SaneCountAt(data, at)
  {
    var b := data[at..at + 8];
    var high := FromLittleEndian(b[2..]);
    assert b[1..][1..] == b[2..];
    assert FromLittleEndian(b) == b[0] + 256 * (b[1] + 256 * high);
    ZeroMeansZeros(b[2..]);
    assert forall i :: 0 <= i < 6 ==> b[2..][i] == data[at + i + 2];
    assert forall i :: at + 2 <= i < at + 8 ==> data[i] == b[2..][i - at - 2];
  }

  /**
   The repair in bytes: nothing changes exactly when the tag of the round in progress is 0 or 1 and the count behind it
   is sane; otherwise everything from that tag on becomes zero and everything before it stays.
   */
  lemma RepairInBytes(data: Bytes)
    requires 300 <= |data| && data[0] == 0x45
    ensures Repaired(data).Some? && |Repaired(data).value| == |data|
    ensures var r, round := Repaired(data).value, if data[210] == 1 then 259 else 211;
            var sane := data[round] <= 1 && SaneCountAt(data, if data[round] == 1 then round + 33 else round + 1);
            && (r == data <==> sane)
            && (!sane ==> forall i :: 0 <= i < |data| ==> r[i] == (if i < round then data[i] else 0))
  {
    var round := CurrentRoundOffset(data);
    SaneCount(data, CompletedRoundsOffset(data));
    if Broken(data) && data[round] <= 1 {
      var count := data[CompletedRoundsOffset(data)..CompletedRoundsOffset(data) + 8];
      ZeroMeansZeros(count);
      var i :| 0 <= i < 8 && count[i] != 0;
      assert data[CompletedRoundsOffset(data) + i] != 0;
    }
  }

  /** The bytes before the round in progress stay; behind them everything is zero if the state was broken. */
  lemma RepairedBytes(data: Bytes)
    requires 300 <= |data| && data[0] == V4_MAGIC
    ensures Repaired(data).Some?
    ensures var r, round := Repaired(data).value, CurrentRoundOffset(data);
            && |r| == |data| && r[0] == V4_MAGIC
            && r[..round] == data[..round] && r[DROP_OPTION_OFFSET] == data[DROP_OPTION_OFFSET]
            && (if Broken(data) then r[round..] == Zeros(|data| - round) else r == data)
            && !Broken(r)
  {
    var r, round := Repaired(data).value, CurrentRoundOffset(data);
    if Broken(data) {
      assert r[round..] == Zeros(|data| - round);
      assert r[DROP_OPTION_OFFSET] == data[DROP_OPTION_OFFSET];
      assert r[round] == 0;
      assert r[round + 1..round + 9] == Zeros(8);
      ZerosAreZero(8);
    }
  }

  /** Repairing twice is repairing once. */
  lemma RepairIsIdempotent(data: Bytes)
    requires 300 <= |data| && data[0] == V4_MAGIC
    ensures Repaired(data).Some? && Repaired(Repaired(data).value) == Repaired(data)
  {
    RepairedBytes(data);
  }

  /** The fields that can be read before the round in progress depend on the bytes before it only. */
  lemma SamePrefixSameFields(data: Bytes, r: Bytes)
    requires 300 <= |data| == |r| && data[DROP_OPTION_OFFSET] <= 1
    requires r[..CurrentRoundOffset(data)] == data[..CurrentRoundOffset(data)]
    ensures r[DROP_OPTION_OFFSET] == data[DROP_OPTION_OFFSET]
    ensures GetHead(data[1..]).Some? && GetHead(r[1..]).Some?
    ensures GetHead(r[1..]).value.0 == GetHead(data[1..]).value.0
    ensures GetOptional(GetDropV2, data[DROP_OPTION_OFFSET..]).Some?
    ensures GetOptional(GetDropV2, r[DROP_OPTION_OFFSET..]).Some?
    ensures GetOptional(GetDropV2, r[DROP_OPTION_OFFSET..]).value.0
         == GetOptional(GetDropV2, data[DROP_OPTION_OFFSET..]).value.0
  {
    var round := CurrentRoundOffset(data);
    assert r[210] == r[..round][210] == data[..round][210];
    assert r[1..][..209] == r[..round][1..210] == data[..round][1..210] == data[1..][..209];
    HeadFromPrefix(data[1..]);
    HeadFromPrefix(r[1..]);
    assert r[210..][..round - 210] == r[..round][210..] == data[..round][210..] == data[210..][..round - 210];
    DropFromPrefix(data[210..], round - 210);
    DropFromPrefix(r[210..], round - 210);
  }

  lemma HeadFromPrefix(b: Bytes)
    requires 209 <= |b|
    ensures GetHead(b).Some? && GetHead(b[..209]).Some?
    ensures GetHead(b).value.0 == GetHead(b[..209]).value.0
  {
    HeadIsTotal(b[..209]);
    HeadIsTotal(b);
    var h := GetHead(b[..209]).value.0;
    HeadCanonical(b[..209]);
    assert b[..209][209..] == [];
    HeadAppend(h, b[209..]);
    assert b == b[..209] + b[209..];
    HeadRead(h, b[209..]);
  }

  lemma DropFromPrefix(b: Bytes, n: nat)
    requires n <= |b| && 49 <= |b| && b[0] <= 1 && n == (if b[0] == 1 then 49 else 1)
    ensures GetOptional(GetDropV2, b).Some? && GetOptional(GetDropV2, b[..n]).Some?
    ensures GetOptional(GetDropV2, b).value.0 == GetOptional(GetDropV2, b[..n]).value.0
  {
    if b[0] == 1 {
      DropIsTotal(b[1..]);
      DropIsTotal(b[..49][1..]);
      var d := GetDropV2(b[..49][1..]).value.0;
      DropV2Canonical(b[..49][1..]);
      assert b[..49][1..][48..] == [];
      DropV2Append(d, b[49..]);
      assert b[1..] == b[..49][1..] + b[49..];
      DropV2Read(d, b[49..]);
    }
  }

  /**
   On any buffer of the current version that is long enough, the repair never fails, keeps every field before
   the round in progress, and leaves a readable state exactly when the drop's option tag is in order. A broken
   state comes out with no round in progress and none completed; a sane one comes out as it was.
   */
  lemma RepairLeavesReadableState(data: Bytes)
    requires 300 <= |data| && data[0] == V4_MAGIC
    ensures Repaired(data).Some?
    ensures var r := Repaired(data).value;
            && |r| == |data| && GetHead(data[1..]).Some? && GetHead(r[1..]).Some?
            && (GetV4(r[1..]).Some? <==> data[DROP_OPTION_OFFSET] <= 1)
    ensures var r := Repaired(data).value;
            data[DROP_OPTION_OFFSET] <= 1 ==>
              && GetV4(r[1..]).Some? && GetOptional(GetDropV2, data[DROP_OPTION_OFFSET..]).Some?
              && var s := GetV4(r[1..]).value.0;
              && s.head == GetHead(data[1..]).value.0
              && s.drop == GetOptional(GetDropV2, data[DROP_OPTION_OFFSET..]).value.0
              && s.completedRoundsCount <= MAX_SANE_ROUNDS
              && (Broken(data) ==> s.currentRound == None && s.completedRoundsCount == 0)
              && (!Broken(data) ==> r == data)
  {
    RepairedBytes(data);
    var r := Repaired(data).value;
    ReadsByOffset(data);
    ReadsByOffset(r);
    if data[DROP_OPTION_OFFSET] <= 1 {
      SamePrefixSameFields(data, r);
      if Broken(data) {
        BrokenTailIsZero(data, r);
      }
    }
  }

  lemma BrokenTailIsZero(data: Bytes, r: Bytes)
    requires 300 <= |data| == |r| && r[DROP_OPTION_OFFSET] == data[DROP_OPTION_OFFSET]
    requires r[CurrentRoundOffset(data)..] == Zeros(|data| - CurrentRoundOffset(data))
    ensures CurrentRoundOffset(r) == CurrentRoundOffset(data)
    ensures r[CurrentRoundOffset(r)] == 0
    ensures FromLittleEndian(r[CompletedRoundsOffset(r)..CompletedRoundsOffset(r) + 8]) == 0
  {
    var round := CurrentRoundOffset(data);
    assert r[round] == r[round..][0];
    forall i | round <= i < |r|
      ensures r[i] == 0
    {
      assert r[i] == r[round..][i - round];
    }
    assert r[round + 1..round + 9] == Zeros(8);
    ZerosAreZero(8);
  }

  /** An account written by the program is left alone exactly when it has completed at most 1000 rounds. */
  lemma EncodingsUntouchedIff(s: ContractStateV4, before: Bytes)
    requires Serialized(V4Type(), s, before).Success?
    ensures var data := Serialized(V4Type(), s, before).value;
            && Repaired(data).Some?
            && (Repaired(data) == Some(data) <==> s.completedRoundsCount <= MAX_SANE_ROUNDS)
            && DeserializeFrom(V4Type(), Repaired(data).value)
               == Success(if s.completedRoundsCount <= MAX_SANE_ROUNDS then s
                          else s.(currentRound := None, completedRoundsCount := 0))
  {
    var data := Serialized(V4Type(), s, before).value;
    V4IsLawful();
    RoundTrip(V4Type(), s, before);
    ReadsByOffset(data);
    RepairLeavesReadableState(data);
    assert Broken(data) <==> s.completedRoundsCount > MAX_SANE_ROUNDS;
    RoundTripAgain(data);
  }

  lemma RoundTripAgain(data: Bytes)
    requires STATE_ACC_SIZE <= |data| && data[0] == V4_MAGIC
    ensures GetV4(data[1..]).Some? ==> DeserializeFrom(V4Type(), data) == Success(GetV4(data[1..]).value.0)
  {
  }
}
