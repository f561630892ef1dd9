/**
 * The SPI flash storage component: its dataports, `init_ok`, and the RPC
 * handlers that cut requests into SPI flash library calls (the cutting is
 * in module FlashChunks). The library's callbacks for a full-duplex transfer
 * and a chip select go to the SPI driver component, which shares the SPI
 * dataport with this one.
 *
 * The SPI flash library is not part of this model: the answer it gives for
 * a call on `[offs, offs + len)` is a parameter `reply(offs, len)` (negative
 * is a failure), and the byte a read fetches from flash address `a` is a
 * parameter `flash(a)`.
 */
module StorageFlash {
  import opened OsError
  import opened OsDataport
  import opened FlashChunks
  import Spi

  /** The W25Q64 settings `post_init` hands to `SPIFLASH_init`. */
  datatype FlashConfig = FlashConfig(
    sz: nat, pageSz: nat, addrSz: nat, addrDummySz: nat, addrBigEndian: bool,
    srWriteMs: nat, pageProgramMs: nat, blockErase4Ms: nat, blockErase8Ms: nat,
    blockErase16Ms: nat, blockErase32Ms: nat, blockErase64Ms: nat, chipEraseMs: nat)

  const W25Q64: FlashConfig :=
    FlashConfig(1024 * 1024 * 8, 256, 3, 0, true, 15, 3, 300, 0, 0, 800, 1000, 6000)

  /** The chunking works with the configured page size: 8 MiB of 256-byte pages. */
  lemma ConfiguredGeometry()
    ensures W25Q64.pageSz == PageSize && W25Q64.sz == 8388608 && W25Q64.sz % PageSize == 0
  {
  }

  /** The state of the storage component: its two dataports and `init_ok`. Each RPC handler returns, as a ghost result, the SPI flash library calls it made, in order. */
  class FlashDriver {
    /** `ctx.port_storage`. */
    const portStorage: Dataport
    /** `ctx.port_spi`, shared with the SPI driver component. */
    const portSpi: Dataport
    /** `ctx.init_ok`. */
    var initOk: bool

    ghost predicate Valid()
    {
      && portStorage.io.Some? && Assigned(portStorage)
      && portSpi.io.Some? && Assigned(portSpi)
      && GetBuf(portStorage) != GetBuf(portSpi)
      && CommandReserve < GetSize(portSpi) <= SizeMax
    }

    constructor (storagePort: array<uint8>, spiPort: array<uint8>)
      requires storagePort != spiPort && CommandReserve < spiPort.Length <= SizeMax
      ensures Valid() && !initOk
      ensures portStorage == Assign(storagePort) && portSpi == Assign(spiPort)
    {
      portStorage := Assign(storagePort);
      portSpi := Assign(spiPort);
      initOk := false;
    }

    function StorageBuf(): array<uint8>
      requires Valid()
    {
      GetBuf(portStorage)
    }

    function SpiBuf(): array<uint8>
      requires Valid()
    {
      GetBuf(portSpi)
    }

    /** `post_init`: `complete` says whether `SPIFLASH_init` filled in config, command table and HAL. */
    method PostInit(complete: bool)
      requires Valid()
      modifies this`initOk
      ensures initOk == (old(initOk) || complete)
    {
      if !complete {
        return;
      }
      initOk := true;
    }

    /** `storage_rpc_write`. */
    method Write(offset: nat, size: nat, reply: (nat, nat) -> int) returns (err: OsError, written: nat, ghost calls: seq<FlashCall>)
      requires Valid() && offset <= SizeMax && size <= SizeMax
      ensures !initOk ==> err == Err(InvalidState) && written == 0 && calls == []
      ensures initOk && size > GetSize(portStorage) ==> err == Err(InvalidParameter) && written == 0 && calls == []
      ensures initOk && size <= GetSize(portStorage) ==>
        && (err == Success || err == Err(Generic))
        && WriteOutcome(offset, size, StorageBuf()[..], reply, calls, written, err == Success)
    {
      written, calls := 0, [];
      if !initOk {
        return Err(InvalidState), written, calls;
      }
      var dataportSize := GetSize(portStorage);
      if size > dataportSize {
        return Err(InvalidParameter), written, calls;
      }
      var ok;
      ok, written, calls := WritePages(offset, size, GetBuf(portStorage)[..], reply);
      err := if ok then Success else Err(Generic);
    }

    /** `storage_rpc_read`; `flash` gives the byte at each flash address. */
    method Read(offset: nat, size: nat, reply: (nat, nat) -> int, flash: nat -> uint8)
      returns (err: OsError, read: nat, ghost calls: seq<FlashCall>)
      requires Valid() && offset <= SizeMax && size <= SizeMax
      modifies StorageBuf()
      ensures !initOk ==> err == Err(InvalidState) && read == 0 && calls == [] && unchanged(StorageBuf())
      ensures initOk && size > GetSize(portStorage) ==>
        err == Err(InvalidParameter) && read == 0 && calls == [] && unchanged(StorageBuf())
      ensures initOk && size <= GetSize(portStorage) ==>
        && (err == Success || err == Err(Generic))
        && ReadOutcome(offset, size, GetSize(portSpi) - CommandReserve, reply, flash,
                       old(StorageBuf()[..]), StorageBuf()[..], calls, read, err == Success)
    {
      read, calls := 0, [];
      if !initOk {
        return Err(InvalidState), read, calls;
      }
      var dataportSize := GetSize(portStorage);
      if size > dataportSize {
        return Err(InvalidParameter), read, calls;
      }
      var ok;
      ok, read, calls := ReadChunked(offset, size, GetBuf(portStorage), GetSize(portSpi) - CommandReserve, reply, flash);
      err := if ok then Success else Err(Generic);
    }

    /** `storage_rpc_erase`; `ret` is what `SPIFLASH_erase` returns. */
    method Erase(offset: nat, size: nat, ret: int) returns (err: OsError, erased: nat, ghost calls: seq<FlashCall>)
      requires Valid()
      ensures !initOk ==> err == Err(InvalidState) && erased == 0 && calls == []
      ensures initOk ==> calls == [FlashErase(offset, size)]
      ensures initOk && ret < 0 ==> err == Err(Generic) && erased == 0
      ensures initOk && ret >= 0 ==> err == Success && erased == size
    {
      erased, calls := 0, [];
      if !initOk {
        return Err(InvalidState), erased, calls;
      }
      calls := [FlashErase(offset, size)];
      if ret < 0 {
        return Err(Generic), erased, calls;
      }
      erased := size;
      return Success, erased, calls;
    }

    /** `storage_rpc_getSize`: the configured flash size, 8 MiB; `size` is left untouched on failure. */
    method GetStorageSize(size: nat) returns (err: OsError, sizeOut: nat)
      ensures !initOk ==> err == Err(InvalidState) && sizeOut == size
      ensures initOk ==> err == Success && sizeOut == W25Q64.sz == 8388608
    {
      if !initOk {
        return Err(InvalidState), size;
      }
      return Success, W25Q64.sz;
    }

    /** `storage_rpc_getState`: no state flags; `flags` is left untouched on failure. */
    method GetState(flags: nat) returns (err: OsError, flagsOut: nat)
      ensures !initOk ==> err == Err(InvalidState) && flagsOut == flags
      ensures initOk ==> err == Success && flagsOut == 0
    {
      if !initOk {
        return Err(InvalidState), flags;
      }
      return Success, 0;
    }

    /**
     * `impl_spiflash_spi_txrx`: copy the command `tx` into the SPI dataport, have
     * the SPI driver transfer it and `rxLen` more bytes, and hand the bytes
     * received after the command back in `rx`'s first `rxLen` bytes; `sent`
     * are the bytes clocked out.
     */
    method SpiTxRx(spi: Spi.SpiDriver, tx: seq<uint8>, rxLen: nat, rx: seq<uint8>, miso: nat -> uint8)
      returns (ret: int, rxOut: seq<uint8>, ghost sent: seq<uint8>)
      requires Valid() && spi.Valid() && spi.port == portSpi && spi.rxBuffer != StorageBuf()
      requires |tx| <= 0xFFFF_FFFF && rxLen <= 0xFFFF_FFFF && rxLen <= |rx|
      modifies SpiBuf(), spi.rxBuffer
      ensures |tx| > GetSize(portSpi) || rxLen > GetSize(portSpi) ==>
        ret == -1 && rxOut == rx && sent == [] && unchanged(SpiBuf())
      ensures |tx| <= GetSize(portSpi) && rxLen <= GetSize(portSpi) ==>
        var staged := Overwrite(old(SpiBuf()[..]), 0, tx);
        var check := Spi.TxRxCheck(spi.initOk, |tx|, rxLen, GetSize(portSpi));
        && (check != Success ==> ret == -1 && rxOut == rx && sent == [] && SpiBuf()[..] == staged)
        && (check == Success ==>
              var received := Spi.Received(miso, |tx| + rxLen)[|tx|..];
              && ret == 0
              && sent == staged[..|tx| + rxLen]
              && sent[..|tx|] == tx
              && rxOut == received + rx[rxLen..]
              && SpiBuf()[..] == Overwrite(staged, 0, received))
    {
      sent := [];
      if |tx| > GetSize(portSpi) {
        return -1, rx, sent;
      }
      if rxLen > GetSize(portSpi) {
        return -1, rx, sent;
      }
      ghost var staged := Overwrite(old(SpiBuf()[..]), 0, tx);
      Copy(GetBuf(portSpi), 0, tx);
      var e;
      e, sent := spi.TxRx(|tx|, rxLen, miso);
      if e != Success {
        return -1, rx, sent;
      }
      ghost var received := Spi.Received(miso, |tx| + rxLen)[|tx|..];
      assert sent[..|tx|] == tx by {
        OverwriteProperties(old(SpiBuf()[..]), 0, tx);
        assert sent == staged[..|tx| + rxLen];
        assert sent[..|tx|] == staged[0..|tx|];
      }
      assert GetBuf(portSpi)[..rxLen] == received by {
        OverwriteProperties(staged, 0, received);
      }
      rxOut := GetBuf(portSpi)[..rxLen] + rx[rxLen..];
      return 0, rxOut, sent;
    }

    /** `impl_spiflash_spi_cs`: forward the chip select; a failure is only logged. */
    method SpiCs(spi: Spi.SpiDriver, cs: uint8)
      modifies spi`settings
      ensures !spi.initOk ==> spi.settings == old(spi.settings)
      ensures spi.initOk ==> spi.settings == old(spi.settings).(chipSelect := Spi.ChipSelectFor(cs as nat))
    {
      var _ := spi.ChipSelect(cs as nat);
    }
  }

  /**
   * The loop of `storage_rpc_write` over the dataport contents `data`: one
   * `SPIFLASH_write` per chunk of `data[..size]` that stays inside one page,
   * stopping at the first chunk the library rejects; `calls` are the calls
   * made, in order.
   */
  method WritePages(offset: nat, size: nat, data: seq<uint8>, reply: (nat, nat) -> int)
    returns (ok: bool, written: nat, ghost calls: seq<FlashCall>)
    requires size <= |data|
    ensures WriteOutcome(offset, size, data, reply, calls, written, ok)
  {
    ghost var cs := WriteChunks(offset, size);
    ghost var k: nat := 0;
    calls := [];
    written := 0;
    var offsetInPage: nat := offset % PageSize;
    var sizeLeft: nat := size;
    WriteProgressStart(offset, size, data, reply);
    while sizeLeft > 0
      invariant WriteProgress(offset, size, data, reply, cs, k, offsetInPage, calls)
      invariant written == Total(cs, k) == size - sizeLeft
      decreases sizeLeft
    {
      var sizeInPage := PageSize - offsetInPage;
      var writeLen := Min(sizeInPage, sizeLeft);
      var sizeAlreadyWritten := size - sizeLeft;
      var offs := SizeWrap(offset + sizeAlreadyWritten);
      var ret := reply(offs, writeLen);
      if ret < 0 {
        WriteProgressReject(offset, size, data, reply, cs, k, offsetInPage, calls, sizeAlreadyWritten, offs, writeLen);
        calls := calls + [FlashWrite(offs, data[sizeAlreadyWritten..sizeAlreadyWritten + writeLen])];
        WriteOutcomeOf(offset, size, data, reply, calls, written, false, cs, k);
        return false, written, calls;
      }
      WriteProgressStep(offset, size, data, reply, cs, k, offsetInPage, calls, sizeAlreadyWritten, offs, writeLen);
      calls := calls + [FlashWrite(offs, data[sizeAlreadyWritten..sizeAlreadyWritten + writeLen])];
      sizeLeft := sizeLeft - writeLen;
      written := sizeAlreadyWritten + writeLen;
      offsetInPage := 0;
      k := k + 1;
    }
    WriteProgressDone(offset, size, data, reply, cs, k, offsetInPage, calls);
    WriteOutcomeOf(offset, size, data, reply, calls, written, true, cs, k);
    return true, written, calls;
  }

  /**
   * The loop of `storage_rpc_read`: one `SPIFLASH_read` of at most `maxLen`
   * bytes per chunk of `buffer[..size]`, each result copied into `buffer`,
   * stopping at the first chunk the library rejects; `calls` are the calls
   * made, in order.
   */
  method ReadChunked(offset: nat, size: nat, buffer: array<uint8>, maxLen: nat, reply: (nat, nat) -> int, flash: nat -> uint8)
    returns (ok: bool, read: nat, ghost calls: seq<FlashCall>)
    requires size <= buffer.Length && maxLen > 0
    modifies buffer
    ensures ReadOutcome(offset, size, maxLen, reply, flash, old(buffer[..]), buffer[..], calls, read, ok)
  {
    ghost var cs := LenChunks(offset, 0, size, maxLen);
    ghost var k: nat := 0;
    calls := [];
    read := 0;
    var sizeLeft: nat := size;
    ReadProgressStart(offset, size, maxLen, reply);
    while sizeLeft > 0
      invariant ReadProgress(offset, size, maxLen, reply, cs, k, calls)
      invariant read == Total(cs, k) == size - sizeLeft
      invariant buffer[..] == Filled(old(buffer[..]), offset, cs, k, flash)
      decreases sizeLeft
    {
      var readLen := Min(maxLen, sizeLeft);
      var sizeAlreadyRead := size - sizeLeft;
      var offs := SizeWrap(offset + sizeAlreadyRead);
      var ret := reply(offs, readLen);
      if ret < 0 {
        ReadProgressReject(offset, size, maxLen, reply, cs, k, calls, sizeAlreadyRead, offs, readLen);
        calls := calls + [FlashRead(offs, readLen)];
        ReadOutcomeOf(offset, size, maxLen, reply, flash, old(buffer[..]), buffer[..], calls, read, false, cs, k);
        return false, read, calls;
      }
      FetchChunk(buffer, old(buffer[..]), offset, size, maxLen, reply, flash, cs, k, calls, sizeAlreadyRead, offs, readLen);
      calls := calls + [FlashRead(offs, readLen)];
      sizeLeft := sizeLeft - readLen;
      read := sizeAlreadyRead + readLen;
      k := k + 1;
    }
    ReadProgressDone(offset, size, maxLen, reply, cs, k, calls);
    ReadOutcomeOf(offset, size, maxLen, reply, flash, old(buffer[..]), buffer[..], calls, read, true, cs, k);
    return true, read, calls;
  }

  /**
   * A successful `SPIFLASH_read` of the next chunk, `len` bytes at `pos` and
   * flash offset `offs`: the flash bytes of that chunk land in `buffer` at
   * `pos`, so the dataport moves from holding the first `k` chunks' bytes to
   * holding the first `k + 1`, and the read loop moves on by `len`.
   */
  method FetchChunk(buffer: array<uint8>, ghost before: seq<uint8>, offset: nat, size: nat, maxLen: nat,
                    reply: (nat, nat) -> int, flash: nat -> uint8, ghost cs: seq<Chunk>, ghost k: nat,
                    ghost calls: seq<FlashCall>, pos: nat, offs: nat, len: nat)
    requires ReadProgress(offset, size, maxLen, reply, cs, k, calls) && Within(cs, |before|)
    requires pos == Total(cs, k) < size && len == Min(maxLen, size - pos) && offs == SizeWrap(offset + pos)
    requires reply(offs, len) >= 0
    requires buffer[..] == Filled(before, offset, cs, k, flash)
    modifies buffer
    ensures k < |cs| && Total(cs, k + 1) == pos + len <= size
    ensures ReadProgress(offset, size, maxLen, reply, cs, k + 1, calls + [FlashRead(offs, len)])
    ensures buffer[..] == Filled(before, offset, cs, k + 1, flash)
  {
    ReadProgressStep(offset, size, maxLen, reply, cs, k, calls, pos, offs, len);
    FilledStep(before, offset, cs, k, flash, pos, len, buffer[..]);
    Copy(buffer, pos, Fetched(flash, offset, Chunk(pos, len)));
  }
}
