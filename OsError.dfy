/**
 * The `OS_Error_t` enumeration of the SDK.
 *
 * The C header declares the codes in groups. Each group opens with a
 * `__START_*` marker that has an explicit value; every following enumerator
 * takes the previous value plus one (C's rule for an enumerator without an
 * initialiser); the group closes with an `__END_*` marker. `OS_SUCCESS` is
 * the implicit successor of the last general code.
 *
 * The model keeps that structure: one enumeration per group, the group's
 * members listed in declaration order, `Position` an enumerator's place in
 * that list and `Code` C's rule applied to it. The lemmas check the numbers
 * the header documents, that every error code is negative and that no two
 * enumerators share a value.
 */
module OsError {
  /** The network error codes, in declaration order. */
  datatype NetworkError =
      NetworkNoSupport | NetworkOpNoSupport | NetworkDown | NetworkUnreachable
    | NetworkNoRoute | NetworkProto | NetworkProtoNoSupport | NetworkProtoOptNoSupport
    | NetworkAddrInUse | NetworkAddrNotAvailable | NetworkConnReset
    | NetworkConnAlreadyBound | NetworkConnNone | NetworkConnShutdown | NetworkConnRefused
    | NetworkHostDown | NetworkHostUnreachable
  /** The device error codes, in declaration order. */
  datatype DeviceError =
      DeviceInvalid | DeviceNotPresent | DeviceBusy
  /** The file system error codes, in declaration order. */
  datatype FsError =
      FsNoFreeHandle | FsDeleteHandle | FsNoDisk | FsInit | FsRegister | FsCreateFs
    | FsFormatFs | FsPartitionRead | FsOpen | FsClose | FsMount | FsUnmount
    | FsFileNotFound | FsOperationDenied | FsInsufficientStorageCapacity | FsStructure
    | FsResolveHandle | FsDeleteResolveHandle | FsLib | FsDatabufferOverlow
    | FsInvalidPartitionMode | FsPartitionNotReady | FsInvalidFilesystem
  /** The configuration server error codes, in declaration order. */
  datatype ConfigError =
      ConfigDomainNotFound | ConfigParameterNotFound | ConfigTypeMismatch
  /** The general error codes, in declaration order. */
  datatype GeneralError =
      InProgress | Timeout | Io | Exists | BufferFull | BufferEmpty | NoData
    | NotInitialized | TryAgain | WouldBlock | OutOfBounds | ConnectionClosed
    | OverflowDetected | InsufficientSpace | BufferTooSmall | Aborted | OperationDenied
    | AccessDenied | NotFound | InvalidHandle | InvalidName | InvalidParameter
    | InvalidState | NotSupported | NotImplemented | Generic
  /** A value of `OS_Error_t`: an error code of one of the groups, or `OS_SUCCESS`. */
  datatype OsError =
    | Net(network: NetworkError)
    | Dev(device: DeviceError)
    | Fs(fileSystem: FsError)
    | Cfg(config: ConfigError)
    | Err(general: GeneralError)
    | Success

  /** The groups of the header, in declaration order. */
  datatype Group = Network | Device | FileSystem | Config | General

  /** Bounds of the range reserved for custom error codes (no custom code is declared). */
  const StartCustom: int := -1000000
  const EndCustom: int := -100000

  /** The explicit value of each group's `__START_*` marker. */
  function Start(g: Group): int
  {
    match g
    case Network => -1318
    case Device => -1204
    case FileSystem => -1124
    case Config => -1004
    case General => -27
  }

  /** The number of enumerators a group declares between its markers. */
  function Count(g: Group): nat
  {
    match g
    case Network => |NetworkMembers|
    case Device => |DeviceMembers|
    case FileSystem => |FsMembers|
    case Config => |ConfigMembers|
    case General => |GeneralMembers|
  }

  /** The value C gives a group's end marker: one past its last member. */
  function End(g: Group): int
  {
    Start(g) + Count(g) + 1
  }

  /** The group an enumerator is declared in; `OS_SUCCESS` follows the general codes. */
  function GroupOf(e: OsError): Group
  {
    match e
    case Net(_) => Network
    case Dev(_) => Device
    case Fs(_) => FileSystem
    case Cfg(_) => Config
    case Err(_) => General
    case Success => General
  }

  /** The place of an enumerator after its group's start marker, counted from 0. */
  function Position(e: OsError): nat
  {
    match e
    case Net(n) => NetworkIndex(n)
    case Dev(d) => DeviceIndex(d)
    case Fs(f) => FsIndex(f)
    case Cfg(c) => ConfigIndex(c)
    case Err(g) => GeneralIndex(g)
    case Success => |GeneralMembers|
  }

  /** The numeric value of an enumerator: the group's start marker plus one per step. */
  function Code(e: OsError): int
  {
    Start(GroupOf(e)) + 1 + Position(e)
  }
  const NetworkMembers: seq<NetworkError> :=
    [NetworkNoSupport, NetworkOpNoSupport, NetworkDown, NetworkUnreachable, NetworkNoRoute,
     NetworkProto, NetworkProtoNoSupport, NetworkProtoOptNoSupport, NetworkAddrInUse,
     NetworkAddrNotAvailable, NetworkConnReset, NetworkConnAlreadyBound, NetworkConnNone,
     NetworkConnShutdown, NetworkConnRefused, NetworkHostDown, NetworkHostUnreachable]

  function NetworkIndex(e: NetworkError): nat
  {
    match e
    case NetworkNoSupport => 0
    case NetworkOpNoSupport => 1
    case NetworkDown => 2
    case NetworkUnreachable => 3
    case NetworkNoRoute => 4
    case NetworkProto => 5
    case NetworkProtoNoSupport => 6
    case NetworkProtoOptNoSupport => 7
    case NetworkAddrInUse => 8
    case NetworkAddrNotAvailable => 9
    case NetworkConnReset => 10
    case NetworkConnAlreadyBound => 11
    case NetworkConnNone => 12
    case NetworkConnShutdown => 13
    case NetworkConnRefused => 14
    case NetworkHostDown => 15
    case NetworkHostUnreachable => 16
  }

  /** Each network code sits at its own index of the declaration list. */
  lemma NetworkMemberAt(e: NetworkError)
    ensures NetworkIndex(e) < |NetworkMembers| && NetworkMembers[NetworkIndex(e)] == e
  {
    match e
    case NetworkNoSupport => {}
    case NetworkOpNoSupport => {}
    case NetworkDown => {}
    case NetworkUnreachable => {}
    case NetworkNoRoute => {}
    case NetworkProto => {}
    case NetworkProtoNoSupport => {}
    case NetworkProtoOptNoSupport => {}
    case NetworkAddrInUse => {}
    case NetworkAddrNotAvailable => {}
    case NetworkConnReset => {}
    case NetworkConnAlreadyBound => {}
    case NetworkConnNone => {}
    case NetworkConnShutdown => {}
    case NetworkConnRefused => {}
    case NetworkHostDown => {}
    case NetworkHostUnreachable => {}
  }

  const DeviceMembers: seq<DeviceError> :=
    [DeviceInvalid, DeviceNotPresent, DeviceBusy]

  function DeviceIndex(e: DeviceError): nat
  {
    match e
    case DeviceInvalid => 0
    case DeviceNotPresent => 1
    case DeviceBusy => 2
  }

  /** Each device code sits at its own index of the declaration list. */
  lemma DeviceMemberAt(e: DeviceError)
    ensures DeviceIndex(e) < |DeviceMembers| && DeviceMembers[DeviceIndex(e)] == e
  {
    match e
    case DeviceInvalid => {}
    case DeviceNotPresent => {}
    case DeviceBusy => {}
  }

  const FsMembers: seq<FsError> :=
    [FsNoFreeHandle, FsDeleteHandle, FsNoDisk, FsInit, FsRegister, FsCreateFs, FsFormatFs,
     FsPartitionRead, FsOpen, FsClose, FsMount, FsUnmount, FsFileNotFound,
     FsOperationDenied, FsInsufficientStorageCapacity, FsStructure, FsResolveHandle,
     FsDeleteResolveHandle, FsLib, FsDatabufferOverlow, FsInvalidPartitionMode,
     FsPartitionNotReady, FsInvalidFilesystem]

  function FsIndex(e: FsError): nat
  {
    match e
    case FsNoFreeHandle => 0
    case FsDeleteHandle => 1
    case FsNoDisk => 2
    case FsInit => 3
    case FsRegister => 4
    case FsCreateFs => 5
    case FsFormatFs => 6
    case FsPartitionRead => 7
    case FsOpen => 8
    case FsClose => 9
    case FsMount => 10
    case FsUnmount => 11
    case FsFileNotFound => 12
    case FsOperationDenied => 13
    case FsInsufficientStorageCapacity => 14
    case FsStructure => 15
    case FsResolveHandle => 16
    case FsDeleteResolveHandle => 17
    case FsLib => 18
    case FsDatabufferOverlow => 19
    case FsInvalidPartitionMode => 20
    case FsPartitionNotReady => 21
    case FsInvalidFilesystem => 22
  }

  /** Each file system code sits at its own index of the declaration list. */
  lemma FsMemberAt(e: FsError)
    ensures FsIndex(e) < |FsMembers| && FsMembers[FsIndex(e)] == e
  {
    match e
    case FsNoFreeHandle => {}
    case FsDeleteHandle => {}
    case FsNoDisk => {}
    case FsInit => {}
    case FsRegister => {}
    case FsCreateFs => {}
    case FsFormatFs => {}
    case FsPartitionRead => {}
    case FsOpen => {}
    case FsClose => {}
    case FsMount => {}
    case FsUnmount => {}
    case FsFileNotFound => {}
    case FsOperationDenied => {}
    case FsInsufficientStorageCapacity => {}
    case FsStructure => {}
    case FsResolveHandle => {}
    case FsDeleteResolveHandle => {}
    case FsLib => {}
    case FsDatabufferOverlow => {}
    case FsInvalidPartitionMode => {}
    case FsPartitionNotReady => {}
    case FsInvalidFilesystem => {}
  }

  const ConfigMembers: seq<ConfigError> :=
    [ConfigDomainNotFound, ConfigParameterNotFound, ConfigTypeMismatch]

  function ConfigIndex(e: ConfigError): nat
  {
    match e
    case ConfigDomainNotFound => 0
    case ConfigParameterNotFound => 1
    case ConfigTypeMismatch => 2
  }

  /** Each configuration server code sits at its own index of the declaration list. */
  lemma ConfigMemberAt(e: ConfigError)
    ensures ConfigIndex(e) < |ConfigMembers| && ConfigMembers[ConfigIndex(e)] == e
  {
    match e
    case ConfigDomainNotFound => {}
    case ConfigParameterNotFound => {}
    case ConfigTypeMismatch => {}
  }

  const GeneralMembers: seq<GeneralError> :=
    [InProgress, Timeout, Io, Exists, BufferFull, BufferEmpty, NoData, NotInitialized,
     TryAgain, WouldBlock, OutOfBounds, ConnectionClosed, OverflowDetected,
     InsufficientSpace, BufferTooSmall, Aborted, OperationDenied, AccessDenied, NotFound,
     InvalidHandle, InvalidName, InvalidParameter, InvalidState, NotSupported,
     NotImplemented, Generic]

  function GeneralIndex(e: GeneralError): nat
  {
    match e
    case InProgress => 0
    case Timeout => 1
    case Io => 2
    case Exists => 3
    case BufferFull => 4
    case BufferEmpty => 5
    case NoData => 6
    case NotInitialized => 7
    case TryAgain => 8
    case WouldBlock => 9
    case OutOfBounds => 10
    case ConnectionClosed => 11
    case OverflowDetected => 12
    case InsufficientSpace => 13
    case BufferTooSmall => 14
    case Aborted => 15
    case OperationDenied => 16
    case AccessDenied => 17
    case NotFound => 18
    case InvalidHandle => 19
    case InvalidName => 20
    case InvalidParameter => 21
    case InvalidState => 22
    case NotSupported => 23
    case NotImplemented => 24
    case Generic => 25
  }

  /** Each general code sits at its own index of the declaration list. */
  lemma GeneralMemberAt(e: GeneralError)
    ensures GeneralIndex(e) < |GeneralMembers| && GeneralMembers[GeneralIndex(e)] == e
  {
    match e
    case InProgress => {}
    case Timeout => {}
    case Io => {}
    case Exists => {}
    case BufferFull => {}
    case BufferEmpty => {}
    case NoData => {}
    case NotInitialized => {}
    case TryAgain => {}
    case WouldBlock => {}
    case OutOfBounds => {}
    case ConnectionClosed => {}
    case OverflowDetected => {}
    case InsufficientSpace => {}
    case BufferTooSmall => {}
    case Aborted => {}
    case OperationDenied => {}
    case AccessDenied => {}
    case NotFound => {}
    case InvalidHandle => {}
    case InvalidName => {}
    case InvalidParameter => {}
    case InvalidState => {}
    case NotSupported => {}
    case NotImplemented => {}
    case Generic => {}
  }

  /** Every named enumerator lies strictly between its group's markers. */
  lemma CodeWithinMarkers(e: OsError)
    requires e != Success
    ensures Start(GroupOf(e)) < Code(e) < End(GroupOf(e))
  {
    match e
    case Net(n) => NetworkMemberAt(n);
    case Dev(d) => DeviceMemberAt(d);
    case Fs(f) => FsMemberAt(f);
    case Cfg(c) => ConfigMemberAt(c);
    case Err(g) => GeneralMemberAt(g);
  }

  /** The end markers equal the values their doc comments give. */
  lemma EndMarkers()
    ensures End(Network) == -1300
    ensures End(Device) == -1200
    ensures End(FileSystem) == -1100
    ensures End(Config) == -1000
  {
  }

  /** The values at the two ends of the general group. */
  lemma SuccessAndGenericCodes()
    ensures Code(Success) == 0
    ensures Code(Err(Generic)) == -1
    ensures Code(Err(InProgress)) == -26
  {
  }

  /** The values the storage, SPI and NIC handlers return. */
  lemma HandlerCodes()
    ensures Code(Err(NotImplemented)) == -2
    ensures Code(Err(NotSupported)) == -3
    ensures Code(Err(InvalidState)) == -4
    ensures Code(Err(InvalidParameter)) == -5
    ensures Code(Err(OutOfBounds)) == -16
  {
  }

  /** `OS_SUCCESS` is the only value that is not negative. */
  lemma ErrorsAreNegative(e: OsError)
    ensures Code(e) < 0 <==> e != Success
    ensures e == Success ==> Code(e) == 0
  {
    if e != Success {
      CodeWithinMarkers(e);
    }
  }

  /** Named codes stay clear of the range reserved for custom codes, which lies below them all. */
  lemma CustomRangeIsFree(e: OsError)
    ensures StartCustom < EndCustom < Code(e)
  {
    if e != Success {
      CodeWithinMarkers(e);
    }
  }

  /** No two enumerators share a value. */
  lemma CodesDistinct(a: OsError, b: OsError)
    ensures Code(a) == Code(b) <==> a == b
  {
    if a != b && Code(a) == Code(b) {
      if a == Success || b == Success {
        CodeWithinMarkers(if a == Success then b else a);
      } else if GroupOf(a) != GroupOf(b) {
        CodeWithinMarkers(a);
        CodeWithinMarkers(b);
      } else {
        SameGroupDistinct(a, b);
      }
    }
  }

  /** Within a group, the place after the start marker tells enumerators apart. */
  lemma SameGroupDistinct(a: OsError, b: OsError)
    requires a != Success && b != Success && GroupOf(a) == GroupOf(b) && Code(a) == Code(b)
    ensures a == b
  {
    match a
    case Net(n) => NetworkMemberAt(n); NetworkMemberAt(b.network);
    case Dev(d) => DeviceMemberAt(d); DeviceMemberAt(b.device);
    case Fs(f) => FsMemberAt(f); FsMemberAt(b.fileSystem);
    case Cfg(c) => ConfigMemberAt(c); ConfigMemberAt(b.config);
    case Err(g) => GeneralMemberAt(g); GeneralMemberAt(b.general);
  }

  /** Reading the general declaration list back gives each entry's index. */
  lemma GeneralDeclarationOrder(i: nat)
    requires i < |GeneralMembers|
    ensures GeneralIndex(GeneralMembers[i]) == i
  {
    if i < 13 {
      GeneralOrderLow(i);
    } else {
      GeneralOrderHigh(i);
    }
  }

  lemma GeneralOrderLow(i: nat)
    requires i < 13
    ensures GeneralIndex(GeneralMembers[i]) == i
  {
    if i == 0 {} else if i == 1 {} else if i == 2 {} else if i == 3 {} else if i == 4 {} else if i == 5 {} else if i == 6 {} else if i == 7 {} else if i == 8 {} else if i == 9 {} else if i == 10 {} else if i == 11 {} else {}
  }

  lemma GeneralOrderHigh(i: nat)
    requires 13 <= i < |GeneralMembers|
    ensures GeneralIndex(GeneralMembers[i]) == i
  {
    if i == 13 {} else if i == 14 {} else if i == 15 {} else if i == 16 {} else if i == 17 {} else if i == 18 {} else if i == 19 {} else if i == 20 {} else if i == 21 {} else if i == 22 {} else if i == 23 {} else if i == 24 {} else {}
  }

  /** The general codes fill -26 .. -1 without a gap. */
  lemma GeneralCodesContiguous(c: int)
    requires -26 <= c <= -1
    ensures exists g :: Code(Err(g)) == c
  {
    GeneralDeclarationOrder(c + 26);
    assert Code(Err(GeneralMembers[c + 26])) == c;
  }
}
