/**
 Entities stored in account data (common/src/entity.rs): a magic byte, the Borsh encoding, and whatever bytes
 were there before behind it.
 */
module Entity {
  import opened Wrappers
  import opened MachineInts
  import opened Borsh

  datatype ProgramError =
    | AccountDataTooSmall
    | UninitializedAccount
    | InvalidAccountData
    | AccountAlreadyInitialized
    | IllegalOwner
    | BorshIoError             // the payload is not an encoding
    | Panic                    // a failed assertion or an index out of range

  /** What the trait asks of an entity type: its two constants and its Borsh encoding. */
  datatype EntityType<!T> = EntityType(
    size: nat,
    magic: u8,
    encode: T -> Bytes,
    decode: Bytes -> Option<(T, Bytes)>)

  /** Reading returns what was written, whatever follows; and only what writing produces can be read. */
  ghost predicate Lawful<T(!new)>(e: EntityType<T>) {
    && 0 < e.size && e.magic != 0
    && (forall x, tail :: e.decode(e.encode(x) + tail) == Some((x, tail)))
    && (forall b :: e.decode(b).Some? ==> b == e.encode(e.decode(b).value.0) + e.decode(b).value.1)
  }

  // ---------------------------------------------------------------- on values

  /** The account data after `serialize_to`. */
  function Serialized<T>(e: EntityType<T>, x: T, data: Bytes): Result<Bytes, ProgramError> {
    if |data| < e.size then Failure(AccountDataTooSmall)
    else
      :- Need(|e.encode(x)| < e.size, Panic);
      Success([e.magic] + e.encode(x) + data[1 + |e.encode(x)|..])
  }

  function DeserializeFrom<T>(e: EntityType<T>, data: Bytes): Result<T, ProgramError> {
    if |data| < e.size then Failure(AccountDataTooSmall)
    else
      :- Need(data != [], Panic);
      :- Need(data[0] != 0, UninitializedAccount);
      :- Need(data[0] == e.magic, InvalidAccountData);
      var (x, _) :- e.decode(data[1..]).OkOr(BorshIoError);
      Success(x)
  }

  /** Reading: the size first, then the magic byte, then the payload. */
  lemma ReadsIff<T>(e: EntityType<T>, data: Bytes)
    requires 0 < e.size && e.magic != 0
    ensures var r := DeserializeFrom(e, data);
            && (r.Success? <==> e.size <= |data| && data[0] == e.magic && e.decode(data[1..]).Some?)
            && (r.Success? ==> r.value == e.decode(data[1..]).value.0)
            && (|data| < e.size ==> r == Failure(AccountDataTooSmall))
            && (e.size <= |data| && data[0] == 0 ==> r == Failure(UninitializedAccount))
            && (e.size <= |data| && data[0] != 0 && data[0] != e.magic ==> r == Failure(InvalidAccountData))
  {
  }

  predicate IsInitialized<T>(e: EntityType<T>, data: Bytes) {
    e.size <= |data| && data != [] && data[0] != 0
  }

  /** Stale bytes never show: what was written over any old contents is what is read back. */
  lemma RoundTrip<T(!new)>(e: EntityType<T>, x: T, data: Bytes)
    requires Lawful(e) && Serialized(e, x, data).Success?
    ensures var after := Serialized(e, x, data).value;
            && |after| == |data| && IsInitialized(e, after)
            && DeserializeFrom(e, after) == Success(x)
  {
    var after := Serialized(e, x, data).value;
    var stale := data[1 + |e.encode(x)|..];
    assert after[1..] == e.encode(x) + stale;
  }

  /** Writing back what was read changes no byte. */
  lemma WriteBackIsIdentity<T(!new)>(e: EntityType<T>, data: Bytes)
    requires Lawful(e) && DeserializeFrom(e, data).Success?
    requires |e.encode(DeserializeFrom(e, data).value)| < e.size
    ensures Serialized(e, DeserializeFrom(e, data).value, data) == Success(data)
  {
    var x, rest := e.decode(data[1..]).value.0, e.decode(data[1..]).value.1;
    assert data[1..] == e.encode(x) + rest;
    assert data == [e.magic] + data[1..];
    assert data[1 + |e.encode(x)|..] == data[1..][|e.encode(x)|..] == rest;
    assert [e.magic] + e.encode(x) + rest == [e.magic] + (e.encode(x) + rest);
  }

  /** The second of two writes wins completely, even when the first one was longer. */
  lemma LastWriteWins<T(!new)>(e: EntityType<T>, x: T, y: T, data: Bytes)
    requires Lawful(e) && Serialized(e, x, data).Success? && |e.encode(y)| < e.size
    ensures Serialized(e, y, Serialized(e, x, data).value).Success?
    ensures DeserializeFrom(e, Serialized(e, y, Serialized(e, x, data).value).value) == Success(y)
  {
    RoundTrip(e, x, data);
    RoundTrip(e, y, Serialized(e, x, data).value);
  }

  // ---------------------------------------------------------------- in place

  /** `sol_memcpy(&mut data[at..], src, src.len())` */
  method CopyInto(data: array<u8>, at: nat, src: Bytes)
    requires at + |src| <= data.Length
    modifies data
    ensures data[..] == old(data[..at]) + src + old(data[at + |src|..])
  {
    forall i | 0 <= i < |src| {
      data[at + i] := src[i];
    }
  }

  /** The magic byte, then the encoding over the old bytes. */
  method Overwrite<T>(e: EntityType<T>, x: T, data: array<u8>)
    requires |e.encode(x)| < e.size <= data.Length
    modifies data
    ensures Serialized(e, x, old(data[..])) == Success(data[..])
  {
    var serialized := e.encode(x);
    data[0] := e.magic;
    assert data[..1] == [e.magic];
    assert data[1 + |serialized|..] == old(data[..])[1 + |serialized|..];
    CopyInto(data, 1, serialized);
  }

  method SerializeTo<T>(e: EntityType<T>, x: T, data: array<u8>) returns (r: Result<(), ProgramError>)
    requires 0 < e.size
    modifies data
    ensures match Serialized(e, x, old(data[..]))
            case Success(after) => r == Success(()) && data[..] == after
            case Failure(error) => r == Failure(error) && data[..] == old(data[..])
  {
    if data.Length < e.size {
      return Failure(AccountDataTooSmall);
    }
    if |e.encode(x)| >= e.size {
      return Failure(Panic);
    }
    Overwrite(e, x, data);
    return Success(());
  }

  method InitializeEntity<T>(e: EntityType<T>, x: T, data: array<u8>) returns (r: Result<(), ProgramError>)
    requires 0 < e.size
    modifies data
    ensures if IsInitialized(e, old(data[..])) then
              r == Failure(AccountAlreadyInitialized) && data[..] == old(data[..])
            else
              match Serialized(e, x, old(data[..]))
              case Success(after) => r == Success(()) && data[..] == after
              case Failure(error) => r == Failure(error) && data[..] == old(data[..])
  {
    if e.size <= data.Length && data[0] != 0 {
      return Failure(AccountAlreadyInitialized);
    }
    r := SerializeTo(e, x, data);
  }

  /** An entity being worked on, written back to its account when the guard goes out of scope. */
  class EntityGuard<T(!new)> {
    const acc: array<u8>
    const entity: EntityType<T>
    var inner: T

    constructor (inner: T, acc: array<u8>, entity: EntityType<T>)
      ensures this.inner == inner && this.acc == acc && this.entity == entity
    {
      this.inner, this.acc, this.entity := inner, acc, entity;
    }

    /** `entity_from_acc` */
    static method Open(acc: array<u8>, owned: bool, entity: EntityType<T>) returns (r: Result<EntityGuard<T>,
                       ProgramError>)
      ensures !owned ==> r == Failure(IllegalOwner)
      ensures owned ==>
                match DeserializeFrom(entity, acc[..])
                case Success(x) =>
                  r.Success? && fresh(r.value) && r.value.inner == x && r.value.acc == acc && r.value.entity == entity
                case Failure(error) => r == Failure(error)
    {
      if !owned {
        return Failure(IllegalOwner);
      }
      var x :- DeserializeFrom(entity, acc[..]);
      var guard := new EntityGuard(x, acc, entity);
      return Success(guard);
    }

    /** `deref_mut`: the working copy changes, the account does not. */
    method Assign(x: T)
      modifies this`inner
      ensures inner == x
    {
      inner := x;
    }

    /** What every instruction that changes an entity does: open it, replace it, and let the guard save it. */
    static method Replace(acc: array<u8>, owned: bool, entity: EntityType<T>, x: T) returns (r: Result<(),
                          ProgramError>)
      requires Lawful(entity)
      modifies acc
      ensures r.Success? ==> DeserializeFrom(entity, acc[..]) == Success(x)
      ensures r.Failure? ==> acc[..] == old(acc[..])
      ensures r.Success? <==>
                owned && DeserializeFrom(entity, old(acc[..])).Success? && |entity.encode(x)| < entity.size
    {
      var guard :- Open(acc, owned, entity);
      guard.Assign(x);
      r := guard.Drop();
    }

    /** `drop`: saves the working copy, and panics when it does not fit. */
    method Drop() returns (r: Result<(), ProgramError>)
      requires Lawful(entity)
      modifies acc
      ensures r.Success? <==> entity.size <= acc.Length && |entity.encode(inner)| < entity.size
      ensures r.Success? ==> DeserializeFrom(entity, acc[..]) == Success(inner)
      ensures r.Success? && DeserializeFrom(entity, old(acc[..])) == Success(inner) ==> acc[..] == old(acc[..])
      ensures r.Failure? ==> r == Failure(Panic) && acc[..] == old(acc[..])
    {
      var saved := SerializeTo(entity, inner, acc);
      if saved.Failure? {
        return Failure(Panic);
      }
      RoundTrip(entity, inner, old(acc[..]));
      if DeserializeFrom(entity, old(acc[..])) == Success(inner) {
        WriteBackIsIdentity(entity, old(acc[..]));
      }
      return Success(());
    }
  }
}
