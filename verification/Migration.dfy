/** Initialization of the state account and its in-place migration to the current layout (human/src/state.rs). */
module Migration {
  import opened Wrappers
  import opened MachineInts
  import opened Vesting
  import opened Borsh
  import opened Entity
  import opened ContractState

  function V3Type(): EntityType<ContractStateV3> {
    EntityType(STATE_ACC_SIZE, V3_MAGIC, s => PutV3(s, []), GetV3)
  }

  function V4Type(): EntityType<ContractStateV4> {
    EntityType(STATE_ACC_SIZE, V4_MAGIC, s => PutV4(s, []), GetV4)
  }

  /** The current layout is a lawful encoding: it round-trips in front of any bytes and has no second reading. */
  lemma V4IsLawful()
    ensures Lawful(V4Type())
  {
    var e := V4Type();
    forall x: ContractStateV4, tail: Bytes
      ensures e.decode(e.encode(x) + tail) == Some((x, tail))
    {
      V4Append(x, tail);
      V4Read(x, tail);
    }
    forall b: Bytes | e.decode(b).Some?
      ensures b == e.encode(e.decode(b).value.0) + e.decode(b).value.1
    {
      V4Canonical(b);
      V4Append(GetV4(b).value.0, GetV4(b).value.1);
    }
  }

  lemma V3IsLawful()
    ensures Lawful(V3Type())
  {
    var e := V3Type();
    forall x: ContractStateV3, tail: Bytes
      ensures e.decode(e.encode(x) + tail) == Some((x, tail))
    {
      V3Append(x, tail);
      V3Read(x, tail);
    }
    forall b: Bytes | e.decode(b).Some?
      ensures b == e.encode(e.decode(b).value.0) + e.decode(b).value.1
    {
      V3Canonical(b);
      V3Append(GetV3(b).value.0, GetV3(b).value.1);
    }
  }

  // ---------------------------------------------------------------- sizes

  lemma RoundsLength(currentRound: Option<Key>, completed: u64, tail: Bytes)
    ensures |PutRounds(currentRound, completed, tail)| == 9 + (if currentRound.Some? then 32 else 0) + |tail|
  {
  }

  lemma HeadLength(h: Fixed, tail: Bytes)
    ensures |PutHead(h, tail)| == 209 + |tail|
  {
    KeysRead(HeadKeys(h), PutU64(h.sold, PutVest(h.vest, tail)));
  }

  /** Every state fits its account, with more than 200 bytes of headroom. */
  lemma V4Fits(s: ContractStateV4)
    ensures 219 <= |V4Type().encode(s)| <= 299
    ensures |V4Type().encode(s)| < V4Type().size
  {
    RoundsLength(s.currentRound, s.completedRoundsCount, []);
    HeadLength(s.head, PutOptional(PutDropV2, s.drop, PutRounds(s.currentRound, s.completedRoundsCount, [])));
  }

  // ---------------------------------------------------------------- initialization

  /** `init_state` */
  method InitState(data: array<u8>, token: Key, owner: Key, admin: Key, commission: Key, treasury: Key,
                   swapState: Key, now: i64)
    returns (r: Result<(), ProgramError>)
    modifies data
    ensures r.Success? <==> STATE_ACC_SIZE <= data.Length && old(data[..])[0] == 0
    ensures r.Success? ==>
              var read := DeserializeFrom(V4Type(), data[..]);
              && read.Success?
              && read.value.head == Fixed(token, owner, admin, commission, treasury, swapState, 0, Vested(now, 0))
              && read.value.drop == None && read.value.currentRound == None && read.value.completedRoundsCount == 0
    ensures r.Failure? ==>
              && data[..] == old(data[..])
              && r.error == (if data.Length == 0 || old(data[..])[0] == 0 then AccountDataTooSmall
                             else AccountAlreadyInitialized)
  {
    if data.Length == 0 {
      return Failure(AccountDataTooSmall);
    }
    if data[0] != 0 {
      return Failure(AccountAlreadyInitialized);
    }
    var head := Fixed(token, owner, admin, commission, treasury, swapState, 0, Vested(now, 0));
    var state := ContractStateV4(head, None, None, 0);
    V4IsLawful();
    V4Fits(state);
    r := SerializeTo(V4Type(), state, data);
    if r.Success? {
      RoundTrip(V4Type(), state, old(data[..]));
    }
  }

  // ---------------------------------------------------------------- migration

  /** What migration makes of an old state: the split address becomes the treasury, a drop gets defaults. */
  function Migrate(s: ContractStateV3, swapState: Key, newCommission: Key, treasury: Key, now: i64): ContractStateV4 {
    ContractStateV4(
      Fixed(s.token, s.owner, s.admin, newCommission,
            if s.additionalSplit.Some? then s.additionalSplit.value.splitAddr else treasury,
            swapState, s.sold, s.vest),
      match s.drop
      case None => None
      case Some(d) => Some(DropV2(0, d.price, 1000_0000, now, d.startDate, d.endDate)),
      None,
      0)
  }

  /** The account data after `try_migrate_state`. */
  function Migrated(data: Bytes, swapState: Key, newCommission: Key, treasury: Key, now: i64): Result<Bytes,
                    ProgramError> {
    if data == [] then Failure(InvalidAccountData)
    else
      if data[0] == V4_MAGIC then Success(data)
      else
        :- Need(data[0] == V3_MAGIC, InvalidAccountData);
        var v3 :- DeserializeFrom(V3Type(), data);
        Serialized(V4Type(), Migrate(v3, swapState, newCommission, treasury, now), data)
  }

  method TryMigrateState(data: array<u8>, swapState: Key, newCommission: Key, treasury: Key, now: i64)
    returns (r: Result<(), ProgramError>)
    modifies data
    ensures match Migrated(old(data[..]), swapState, newCommission, treasury, now)
            case Success(after) => r == Success(()) && data[..] == after
            case Failure(error) => r == Failure(error) && data[..] == old(data[..])
  {
    if data.Length == 0 {
      return Failure(InvalidAccountData);
    }
    if data[0] == V4_MAGIC {
      return Success(());
    }
    if data[0] != V3_MAGIC {
      return Failure(InvalidAccountData);
    }
    var v3 :- DeserializeFrom(V3Type(), data[..]);
    var state := Migrate(v3, swapState, newCommission, treasury, now);
    V4Fits(state);
    Overwrite(V4Type(), state, data);
    return Success(());
  }

  /**
   Migration of any account holding an old state always succeeds, and what is read back afterwards is exactly
   the migrated state, whatever stale bytes of the old layout remain behind it.
   */
  lemma MigrationRoundTrip(data: Bytes, swapState: Key, newCommission: Key, treasury: Key, now: i64)
    requires DeserializeFrom(V3Type(), data).Success?
    ensures var r := Migrated(data, swapState, newCommission, treasury, now);
            && r.Success? && |r.value| == |data|
            && DeserializeFrom(V4Type(), r.value)
               == Success(Migrate(DeserializeFrom(V3Type(), data).value, swapState, newCommission, treasury, now))
  {
    var state := Migrate(DeserializeFrom(V3Type(), data).value, swapState, newCommission, treasury, now);
    V4IsLawful();
    V4Fits(state);
    RoundTrip(V4Type(), state, data);
  }

  /**
   Field by field: the identity, the sales and the vesting are kept; the commission and swap accounts are new; the
   address of a split, if there was one, is the treasury; a drop in progress gets ten million tokens and this moment as
   its creation; no rounds have been held.
   */
  lemma MigrationKeepsFields(data: Bytes, swapState: Key, newCommission: Key, treasury: Key, now: i64)
    requires DeserializeFrom(V3Type(), data).Success?
    ensures Migrated(data, swapState, newCommission, treasury, now).Success?
    ensures var migrated := DeserializeFrom(V4Type(), Migrated(data, swapState, newCommission, treasury, now).value);
            && migrated.Success?
            && var (v3, v4) := (DeserializeFrom(V3Type(), data).value, migrated.value);
            && v4.head.token == v3.token && v4.head.owner == v3.owner && v4.head.admin == v3.admin
            && v4.head.sold == v3.sold && v4.head.vest == v3.vest
            && v4.head.commissionAddr == newCommission && v4.head.swapState == swapState
            && (v3.additionalSplit.None? ==> v4.head.treasuryAddr == treasury)
            && (v3.additionalSplit.Some? ==> v4.head.treasuryAddr == v3.additionalSplit.value.splitAddr)
            && (v3.drop.None? <==> v4.drop.None?)
            && (v3.drop.Some? ==>
                  && v4.drop.value.id == 0 && v4.drop.value.price == v3.drop.value.price
                  && v4.drop.value.amount == 10_000_000 && v4.drop.value.createdAt == now
                  && v4.drop.value.startDate == v3.drop.value.startDate
                  && v4.drop.value.endDate == v3.drop.value.endDate)
            && v4.currentRound == None && v4.completedRoundsCount == 0
  {
    MigrationRoundTrip(data, swapState, newCommission, treasury, now);
  }

  /** From the old state to the new one through the account's bytes. */
  lemma WrittenThenMigrated(s: ContractStateV3, data: Bytes, swapState: Key, newCommission: Key, treasury: Key,
                            now: i64)
    requires Serialized(V3Type(), s, data).Success?
    ensures var r := Migrated(Serialized(V3Type(), s, data).value, swapState, newCommission, treasury, now);
            && r.Success?
            && DeserializeFrom(V4Type(), r.value) == Success(Migrate(s, swapState, newCommission, treasury, now))
  {
    V3IsLawful();
    RoundTrip(V3Type(), s, data);
    MigrationRoundTrip(Serialized(V3Type(), s, data).value, swapState, newCommission, treasury, now);
  }

  /**
   Migration succeeds exactly on accounts already up to date and on readable old states; doing it twice is doing
   it once.
   */
  lemma MigratesIffReadable(data: Bytes, swapState: Key, newCommission: Key, treasury: Key, now: i64, later: i64)
    ensures var r := Migrated(data, swapState, newCommission, treasury, now);
            && (r.Success? <==>
                  (data != [] && data[0] == V4_MAGIC) || DeserializeFrom(V3Type(), data).Success?)
            && (r.Success? ==> Migrated(r.value, swapState, newCommission, treasury, later) == r)
  {
    if DeserializeFrom(V3Type(), data).Success? {
      MigrationRoundTrip(data, swapState, newCommission, treasury, now);
    }
  }
}
