/**
 * The RAM disk storage component: a zero-initialised byte array behind the
 * storage RPC interface. Every handler fails with `INVALID_STATE` until
 * `post_init` has run successfully; write, read and erase check the
 * requested area before touching memory.
 */
module RamDisk {
  import opened Wrappers
  import opened OsError
  import opened OsDataport

  /** The range of the signed 64-bit `off_t`. */
  predicate InOffT(x: int)
  {
    -0x8000_0000_0000_0000 <= x <= 0x7FFF_FFFF_FFFF_FFFF
  }

  /** `(uintmax_t)x` for a 64-bit `off_t`: two's-complement reinterpretation. */
  function ToUintMax(x: int): nat
  {
    x % 0x1_0000_0000_0000_0000
  }

  /**
   * `isValidStorageArea` as written: the end of the area is summed in
   * `uintmax_t` (so it may wrap), and the area is accepted when offset and
   * size are non-negative, the sum did not wrap and the end is inside the
   * storage. The contract is the plain mathematical reading of that test.
   */
  function IsValidStorageArea(offset: int, size: int, storageSize: nat): (ok: bool)
    requires InOffT(offset) && InOffT(size)
    ensures ok <==> 0 <= offset && 0 <= size && offset + size <= storageSize
  {
    var end := (ToUintMax(offset) + ToUintMax(size)) % 0x1_0000_0000_0000_0000;
    offset >= 0 && size >= 0 && end >= ToUintMax(offset) && end <= storageSize
  }

  /** The byte `memset` writes on erase: all bits set, as an erased EEPROM reads. */
  const ErasedByte: uint8 := 0xFF

  class Disk {
    /** `storage[RAMDISK_SIZE_BYTES]`. */
    const storage: array<uint8>
    /** `ctx.port_storage`: the dataport shared with the client. */
    const portStorage: Dataport
    /** `ctx.init_ok`. */
    var initOk: bool

    ghost predicate Valid()
      reads this
    {
      && portStorage.io.Some? && Assigned(portStorage) && GetBuf(portStorage) != storage
      && InOffT(GetSize(portStorage))
    }

    /** The state before `post_init`: storage all zero, not initialised. */
    constructor (sizeBytes: nat, storagePort: array<uint8>)
      requires InOffT(storagePort.Length)
      ensures Valid() && fresh(storage)
      ensures storage.Length == sizeBytes && forall i :: 0 <= i < sizeBytes ==> storage[i] == 0
      ensures portStorage == Assign(storagePort) && !initOk
    {
      storage := new uint8[sizeBytes](_ => 0);
      portStorage := Assign(storagePort);
      initOk := false;
    }

    /** The client's buffer. */
    function Port(): array<uint8>
      reads this
      requires Valid()
    {
      GetBuf(portStorage)
    }

    /** `storage_rpc_write`: copy `size` dataport bytes to `storage[offset..]`. */
    method Write(offset: int, size: nat, written: nat) returns (err: OsError, writtenOut: nat)
      requires Valid() && InOffT(offset) && size <= SizeMax
      modifies storage
      ensures !initOk ==>
        err == Err(InvalidState) && writtenOut == written && storage[..] == old(storage[..])
      ensures initOk && size > GetSize(portStorage) ==>
        err == Err(InvalidParameter) && writtenOut == written && storage[..] == old(storage[..])
      ensures initOk && size <= GetSize(portStorage) && !(0 <= offset && offset + size <= storage.Length) ==>
        err == Err(OutOfBounds) && writtenOut == 0 && storage[..] == old(storage[..])
      ensures initOk && size <= GetSize(portStorage) && 0 <= offset && offset + size <= storage.Length ==>
        err == Success && writtenOut == size &&
        storage[..] == Overwrite(old(storage[..]), offset, Port()[..size])
    {
      if !initOk {
        return Err(InvalidState), written;
      }
      var dataportSize := GetSize(portStorage);
      if size > dataportSize {
        return Err(InvalidParameter), written;
      }
      if !IsValidStorageArea(offset, size, storage.Length) {
        return Err(OutOfBounds), 0;
      }
      Copy(storage, offset, GetBuf(portStorage)[..size]);
      return Success, size;
    }

    /** `storage_rpc_read`: copy `storage[offset..offset + size]` to the start of the dataport. */
    method Read(offset: int, size: nat, read: nat) returns (err: OsError, readOut: nat)
      requires Valid() && InOffT(offset) && size <= SizeMax
      modifies Port()
      ensures !initOk ==>
        err == Err(InvalidState) && readOut == read && Port()[..] == old(Port()[..])
      ensures initOk && size > GetSize(portStorage) ==>
        err == Err(InvalidParameter) && readOut == read && Port()[..] == old(Port()[..])
      ensures initOk && size <= GetSize(portStorage) && !(0 <= offset && offset + size <= storage.Length) ==>
        err == Err(OutOfBounds) && readOut == 0 && Port()[..] == old(Port()[..])
      ensures initOk && size <= GetSize(portStorage) && 0 <= offset && offset + size <= storage.Length ==>
        err == Success && readOut == size &&
        Port()[..] == Overwrite(old(Port()[..]), 0, storage[offset..offset + size])
    {
      if !initOk {
        return Err(InvalidState), read;
      }
      var dataportSize := GetSize(portStorage);
      if size > dataportSize {
        return Err(InvalidParameter), read;
      }
      if !IsValidStorageArea(offset, size, storage.Length) {
        return Err(OutOfBounds), 0;
      }
      Copy(GetBuf(portStorage), 0, storage[offset..offset + size]);
      return Success, size;
    }

    /** `storage_rpc_erase`: `*erased` is 0 unless the area was set to 0xFF; no dataport check. */
    method Erase(offset: int, size: int) returns (err: OsError, erased: int)
      requires Valid() && InOffT(offset) && InOffT(size)
      modifies storage
      ensures !initOk ==> err == Err(InvalidState) && erased == 0 && storage[..] == old(storage[..])
      ensures initOk && !(0 <= offset && 0 <= size && offset + size <= storage.Length) ==>
        err == Err(OutOfBounds) && erased == 0 && storage[..] == old(storage[..])
      ensures initOk && 0 <= offset && 0 <= size && offset + size <= storage.Length ==>
        err == Success && erased == size &&
        storage[..] == Overwrite(old(storage[..]), offset, seq(size, _ => ErasedByte))
    {
      erased := 0;
      if !initOk {
        return Err(InvalidState), erased;
      }
      if !IsValidStorageArea(offset, size, storage.Length) {
        return Err(OutOfBounds), erased;
      }
      Fill(storage, offset, size, ErasedByte);
      erased := size;
      return Success, erased;
    }

    /** `storage_rpc_getSize`: the storage size, once initialised. */
    method GetStorageSize(size: int) returns (err: OsError, sizeOut: int)
      ensures initOk ==> err == Success && sizeOut == storage.Length
      ensures !initOk ==> err == Err(InvalidState) && sizeOut == size
    {
      if !initOk {
        return Err(InvalidState), size;
      }
      return Success, storage.Length;
    }

    /** `storage_rpc_getState`: flags cleared, but the call reports `NOT_SUPPORTED`. */
    method GetState(flags: nat) returns (err: OsError, flagsOut: nat)
      ensures initOk ==> err == Err(NotSupported) && flagsOut == 0
      ensures !initOk ==> err == Err(InvalidState) && flagsOut == flags
    {
      if !initOk {
        return Err(InvalidState), flags;
      }
      return Err(NotSupported), 0;
    }

    /** `storage_rpc_getBlockSize`: byte-granular storage, block size 1. */
    method GetBlockSize(blockSize: nat) returns (err: OsError, blockSizeOut: nat)
      ensures initOk ==> err == Success && blockSizeOut == 1
      ensures !initOk ==> err == Err(InvalidState) && blockSizeOut == blockSize
    {
      if !initOk {
        return Err(InvalidState), blockSize;
      }
      return Success, 1;
    }

    /**
     * `post_init`. `imageSize` is `RAMDISK_IMAGE_SIZE` (0 when no image is
     * linked); `decompressed` is what `RleCompressor_decompress` produced,
     * None when it failed. The disk becomes usable unless an image is linked
     * and fails to decompress.
     */
    method PostInit(imageSize: nat, decompressed: Option<seq<uint8>>)
      requires Valid()
      requires decompressed.Some? ==> |decompressed.value| <= storage.Length
      modifies this, storage
      ensures Valid()
      ensures initOk <==> old(initOk) || imageSize == 0 || decompressed.Some?
      ensures imageSize == 0 || decompressed.None? ==> storage[..] == old(storage[..])
      ensures imageSize != 0 && decompressed.Some? ==>
        storage[..] == Overwrite(old(storage[..]), 0, decompressed.value)
    {
      if imageSize != 0 {
        if decompressed.None? {
          return;
        }
        Copy(storage, 0, decompressed.value);
      }
      initOk := true;
    }
  }

  /** A successful write followed by a read of the same area hands the written bytes back. */
  method WriteThenRead(disk: Disk, offset: int, size: nat) returns (werr: OsError, rerr: OsError)
    requires disk.Valid() && InOffT(offset) && size <= disk.Port().Length
    modifies disk.storage, disk.Port()
    ensures werr == Success && rerr == Success ==> disk.Port()[..size] == old(disk.Port()[..size])
    ensures werr == Success <==> rerr == Success
  {
    ghost var sent := disk.Port()[..size];
    var written, read;
    werr, written := disk.Write(offset, size, 0);
    ghost var stored := disk.storage[..];
    rerr, read := disk.Read(offset, size, 0);
    if werr == Success {
      OverwriteProperties(old(disk.storage[..]), offset, sent);
      assert stored[offset..offset + size] == sent;
      OverwriteProperties(old(disk.Port()[..]), 0, sent);
      assert disk.Port()[..][..size] == sent;
    }
  }
}
