/** Values shared by every component: fixed-width integers, register words, Modbus blocks and the
    validated device profile. */
module Domain {
  datatype Option<+T> = None | Some(value: T)

  const U32_MAX: nat := 0xFFFF_FFFF
  const U64_MAX: nat := 0xFFFF_FFFF_FFFF_FFFF
  const U128_MAX: nat := 0xFFFF_FFFF_FFFF_FFFF_FFFF_FFFF_FFFF_FFFF

  type Word = w: int | 0 <= w <= 0xFFFF
  type U32 = x: int | 0 <= x <= 0xFFFF_FFFF
  type U64 = x: int | 0 <= x <= 0xFFFF_FFFF_FFFF_FFFF

  type U128 = x: int | 0 <= x <= 0xFFFF_FFFF_FFFF_FFFF_FFFF_FFFF_FFFF_FFFF

  type ParameterId = string
  /** A device fingerprint is a validated text id, hence never empty. */
  type Fingerprint = s: string | s != "" witness "f"
  /** Lower-case hexadecimal SHA-256 text. */
  type Digest = s: string | |s| == 64 witness seq(64, _ => '0')

  /** Words received from, or prepared for, one Modbus request. */
  type RawRegisters = s: seq<Word> | 1 <= |s| <= 125 witness [0]

  /** Fixed-point values are exact rationals; float variants keep only their bits. */
  datatype EngineeringValue =
    | Fixed(decimal: real)
    | Float32Bits(bits32: U32)
    | Float64Bits(bits64: U64)
    | EnumRaw(enumRaw: int)
    | BitfieldRaw(mask: U64)

  function SaturatingAdd(x: nat, y: nat, limit: nat): (r: nat)
  {
    if x + y > limit then limit else x + y
  }

  function Min(x: int, y: int): int {
    if x <= y then x else y
  }

  function Max(x: int, y: int): int {
    if x >= y then x else y
  }
}

/** Register blocks and function limits of the MODBUS Application Protocol V1.1b3, sections 6.3, 6.4,
    6.6 and 6.12. */
module Modbus {
  datatype Table = InputRegisters | HoldingRegisters

  datatype Function =
    | ReadHoldingRegisters
    | ReadInputRegisters
    | WriteSingleRegister
    | WriteMultipleRegisters
  {
    predicate IsWrite() {
      WriteSingleRegister? || WriteMultipleRegisters?
    }

    predicate ValidatesCount(count: nat) {
      match this
      case ReadHoldingRegisters => count <= 125
      case ReadInputRegisters => count <= 125
      case WriteSingleRegister => count == 1
      case WriteMultipleRegisters => count <= 123
    }

    predicate ValidatesTable(table: Table) {
      if ReadInputRegisters? then table == InputRegisters else table == HoldingRegisters
    }
  }

  datatype RegisterBlock = RegisterBlock(table: Table, start: nat, count: nat) {
    /** Inclusive final PDU address. */
    function End(): int {
      start + count - 1
    }

    /** What the checked constructor accepts for `function`. */
    predicate ValidFor(function_: Function) {
      && count >= 1
      && function_.ValidatesTable(table)
      && function_.ValidatesCount(count)
      && End() <= 0xFFFF
    }
  }

  function ReadFunction(table: Table): Function {
    match table
    case InputRegisters => ReadInputRegisters
    case HoldingRegisters => ReadHoldingRegisters
  }
}

/** The part of a validated device profile the guarded operations depend on. */
module Profiles {
  import opened Domain
  import Modbus

  datatype Access = ReadOnly | WritableWhenStopped | Commissioning | Dangerous
  datatype RestorePolicy = Normal | LinkCritical | RestartRequired | ManualOnly
  datatype DriveState = Stopped | Running | Faulted | Unknown
  datatype RequiredDriveState = AnyState | StoppedState | FaultedState

  /** Any register codec. Every result below holds whatever the two functions compute. */
  datatype Codec = Codec(
    decode: RawRegisters -> Option<EngineeringValue>,
    encode: EngineeringValue -> Option<RawRegisters>)

  /** `within` stands for the IEEE tolerance comparison, which is left uninterpreted. */
  datatype ReadBackPolicy =
    | ExactRaw
    | FloatExactBits
    | AcceptedRawSet(accepted: seq<RawRegisters>)
    | FloatAbsRelTolerance(within: (RawRegisters, RawRegisters) -> bool)

  datatype Parameter = Parameter(
    code: string,
    unit: string,
    quantity: string,
    includedInBackup: bool,
    block: Modbus.RegisterBlock,
    codec: Codec,
    enumValues: set<int>,
    bitFlags: set<nat>,
    access: Access,
    restorePolicy: RestorePolicy,
    requiredDriveState: RequiredDriveState,
    writeFunction: Option<Modbus.Function>,
    readBack: ReadBackPolicy,
    minimum: Option<real>,
    maximum: Option<real>,
    step: Option<real>,
    forbiddenRaw: seq<RawRegisters>)
  {
    /** What profile validation guarantees about one parameter. */
    ghost predicate Valid() {
      && block.ValidFor(Modbus.ReadFunction(block.table))
      && (forall raw :: codec.decode(raw).Some? ==> |raw| == block.count)
      && (forall v :: codec.encode(v).Some? ==> |codec.encode(v).value| == block.count)
      && (writeFunction.Some? ==>
            && writeFunction.value.IsWrite()
            && writeFunction.value.ValidatesTable(block.table)
            && writeFunction.value.ValidatesCount(block.count))
    }

    predicate ReadBackMatches(expected: RawRegisters, actual: RawRegisters) {
      match readBack
      case ExactRaw => actual == expected
      case FloatExactBits => actual == expected
      case AcceptedRawSet(accepted) => actual in accepted
      case FloatAbsRelTolerance(within) => within(expected, actual)
    }
  }

  datatype DriveStateSource = DriveStateSource(
    parameterId: ParameterId,
    stoppedRaw: seq<RawRegisters>,
    runningRaw: seq<RawRegisters>,
    faultedRaw: seq<RawRegisters>)
  {
    function Classify(raw: RawRegisters): DriveState {
      if raw in stoppedRaw then Stopped
      else if raw in runningRaw then Running
      else if raw in faultedRaw then Faulted
      else Unknown
    }
  }

  datatype Profile = Profile(
    profileId: string,
    revision: nat,
    hash: Digest,
    parameters: map<ParameterId, Parameter>,
    driveStateSource: Option<DriveStateSource>,
    restoreOrder: seq<ParameterId>)
  {
    function Find(id: ParameterId): Option<Parameter> {
      if id in parameters then Some(parameters[id]) else None
    }

    ghost predicate Valid() {
      && (forall id :: id in parameters ==> parameters[id].Valid())
      && (forall i, j :: 0 <= i < j < |restoreOrder| ==> restoreOrder[i] != restoreOrder[j])
      && |restoreOrder| < 0x8000_0000_0000_0000
    }
  }

  type ValidatedProfile = p: Profile | p.Valid()
    witness Profile("", 0, seq(64, _ => '0'), map[], None, [])
}
