# TRENT-OS SDK components: a Dafny model

This project models the driver and service components of the TRENT-OS SDK
together with the two SDK headers they all use.

- **ChanMux** (`ChanMux.dfy`). This is the channel multiplexer component.
  - It holds a lazily built singleton engine that the two RPC entry points forward to.
  - Its intake loop `run()` drains the lower channel's FIFO dataport into an internal 2048-byte FIFO. It prefers draining until that FIFO is above 75 % of its capacity, then boosts processing by the excess.
  - It hands every byte, in order, to the engine.
  - It stops with -1 once the FIFOs are empty and the producer has raised the overflow flag in the dataport's last byte.
- **RamDisk** (`RamDisk.dfy`). This is the RAM-backed storage component: bounds-checked write, read and erase over a static byte array, plus size, state, block size and `post_init`.
- **Storage_Flash_SPI** (`StorageFlash.dfy`, `FlashChunks.dfy`). This is the SPI flash storage component.
  - Writes are cut so that no library call crosses a 256-byte flash page.
  - Reads are cut into pieces that fit the SPI dataport less an 8-byte command reserve.
  - Both stop at the first piece the flash library rejects.
  - Two callbacks route the library's transfers and chip selects to the SPI driver.
- **SPI** (`Spi.dfy`). This is the BCM2837 SPI driver component.
  - The transfer RPC checks the requested lengths, transfers full duplex through a static receive buffer, and copies the answer back into the dataport.
  - The chip-select RPC maps its argument to a chip.
- **NIC_Dummy** (`NicDummy.dfy`). This is the stub network driver: it cannot receive, it accepts and drops every transmit, and it reports the MAC 00:11:22:33:44:55.
- **OS_Error.h / OS_Dataport.h** (`OsError.dfy`, `OsDataport.dfy`).
  - The error enumeration is modelled with its group markers and the numeric value of every enumerator.
  - The dataport record is modelled with its assign/none macros and its accessors.
  - `memcpy` and `memset` are modelled on byte arrays.

State is modelled as classes:

- Components whose static variables the handlers update are classes: `Disk`, `FlashDriver`, `SpiDriver`, `Nic`, `Component` and `Engine`.
- The internal FIFO (`CharFifo`) and the dataport FIFO (`FifoPort`) are classes whose contents are `seq` fields.
- Loops are `while` loops proved against specification functions: `WriteChunks` and `ReadChunks` with `WriteOutcome` and `ReadOutcome` for the flash, and `ProcessCount` and `Arrivals` for ChanMux.
- Answers from code outside the model are parameters:
  - the flash library's reply per call (`reply`);
  - the flash contents (`flash`);
  - the SPI bytes clocked in (`miso`);
  - the outcomes of `ChanMux_ctor` and `CharFifo_ctor`;
  - the engine's RPC answers;
  - what the producer does at each wait (`events`).

## Model

| member | source | states |
|---|---|---|
| OsDataport.Assign | libs/test/ext_mocks/include/OS_Dataport.h:29-32 | `OS_DATAPORT_ASSIGN` refers to the buffer and records its length as the size |
| OsDataport.AccessorsAfterAssign | libs/test/ext_mocks/include/OS_Dataport.h:8-36 | the accessors return the buffer and size the macros recorded; `OS_DATAPORT_NONE` has no buffer and size 0 |
| OsDataport.DefaultSizeIs4096 | libs/test/ext_mocks/include/OS_Dataport.h:45-51 | the default dataport size `BIT(12)` is 4096 bytes |
| OsDataport.NewFakeDataport | libs/test/ext_mocks/include/OS_Dataport.h:54 | a fake dataport is a fresh buffer of the default size, whose assigned size is 4096 |
| OsError.CodeWithinMarkers | libs/test/ext_mocks/include/OS_Error.h:19-165 | every enumerator other than `OS_SUCCESS` lies strictly between its group's start and end markers |
| OsError.EndMarkers | libs/test/ext_mocks/include/OS_Error.h:45-127 | the implicit end markers come to -1300, -1200, -1100 and -1000, which are the values their comments give |
| OsError.SuccessAndGenericCodes | libs/test/ext_mocks/include/OS_Error.h:134-165 | `OS_SUCCESS` is 0, `OS_ERROR_GENERIC` is -1 and `OS_ERROR_IN_PROGRESS` is -26 |
| OsError.HandlerCodes | libs/test/ext_mocks/include/OS_Error.h:147-161 | the numeric values of the codes the components return (-2, -3, -4, -5, -16) |
| OsError.ErrorsAreNegative | libs/test/ext_mocks/include/OS_Error.h:4-167 | a code is negative if and only if it is not `OS_SUCCESS` |
| OsError.CustomRangeIsFree | libs/test/ext_mocks/include/OS_Error.h:9-13 | the reserved custom range lies below every named code |
| OsError.CodesDistinct | libs/test/ext_mocks/include/OS_Error.h:4-167 | two enumerators have the same value if and only if they are the same enumerator |
| OsError.SameGroupDistinct | libs/test/ext_mocks/include/OS_Error.h:4-167 | within one group, equal values mean equal enumerators |
| OsError.GeneralDeclarationOrder | libs/test/ext_mocks/include/OS_Error.h:137-162 | each general enumerator's index equals its place in the declaration list |
| OsError.GeneralCodesContiguous | libs/test/ext_mocks/include/OS_Error.h:134-162 | every value from -26 to -1 is some general error code |
| NicDummy.Nic.constructor | components/NIC_Dummy/driver.c:16 | the driver's dataport is the assigned `nic_port_to` |
| NicDummy.Nic.RxData | components/NIC_Dummy/driver.c:18-24 | receiving returns `NOT_IMPLEMENTED` (-2) and leaves both out-parameters as they were |
| NicDummy.Nic.TxData | components/NIC_Dummy/driver.c:26-32 | transmitting returns `OS_SUCCESS` and leaves `*pLen` as it was |
| NicDummy.Nic.GetMacAddress | components/NIC_Dummy/driver.c:34-48 | the dataport's first six bytes become 00:11:22:33:44:55, the rest is unchanged, and the result is success |
| RamDisk.IsValidStorageArea | components/RamDisk/RamDisk.c:58-76 | the `uintmax_t` test with its wrap-around accepts exactly the areas with non-negative offset and size whose end is inside the storage |
| RamDisk.Disk.constructor | components/RamDisk/RamDisk.c:17-28 | before `post_init` the storage is all zero and the component is not initialised |
| RamDisk.Disk.Write | components/RamDisk/RamDisk.c:82-118 | `INVALID_STATE`, then `INVALID_PARAMETER` (size over the dataport), then `OUT_OF_BOUNDS` (written 0), in that order; on success exactly the dataport's first `size` bytes are copied into the storage at `offset` |
| RamDisk.Disk.Read | components/RamDisk/RamDisk.c:124-160 | the same error chain; on success the storage area lands at the dataport's start and nothing else changes |
| RamDisk.Disk.Erase | components/RamDisk/RamDisk.c:166-209 | `INVALID_STATE` or `OUT_OF_BOUNDS` with erased 0 and the storage unchanged; otherwise exactly the area is set to 0xFF and erased is the size |
| RamDisk.Disk.GetStorageSize | components/RamDisk/RamDisk.c:215-229 | the storage size once initialised; `INVALID_STATE` before, with the output untouched |
| RamDisk.Disk.GetState | components/RamDisk/RamDisk.c:235-248 | once initialised the flags are cleared but the call answers `NOT_SUPPORTED` |
| RamDisk.Disk.GetBlockSize | components/RamDisk/RamDisk.c:253-266 | block size 1 once initialised; `INVALID_STATE` before |
| RamDisk.Disk.PostInit | components/RamDisk/RamDisk.c:271-298 | the disk becomes usable unless a linked image fails to decompress; a decompressed image is copied to the start of the storage |
| RamDisk.WriteThenRead | components/RamDisk/RamDisk.c:82-160 | a write followed by a read of the same area succeeds for both or for neither, and on success gives the written bytes back |
| FlashChunks.WriteChunksInPage | components/Storage_Flash/Storage_Flash_SPI.c:327-361 | the write pieces tile the request; each lies inside one flash page; the first runs to its page end or the request end; the later ones start on page boundaries; a zero-length request makes no call |
| FlashChunks.ReadChunksBounded | components/Storage_Flash/Storage_Flash_SPI.c:402-427 | the read pieces tile the request and none is longer than the SPI dataport less the 8-byte reserve |
| FlashChunks.Accepted | components/Storage_Flash/Storage_Flash_SPI.c:333-343 | the number of pieces before the first one the library rejects: all of those were accepted and the next one, if any, was rejected |
| FlashChunks.WriteOutcomeProperties | components/Storage_Flash/Storage_Flash_SPI.c:327-361 | every `SPIFLASH_write` stays inside one page; written never exceeds size and equals it exactly when the write succeeded |
| FlashChunks.ReadOutcomeCalls | components/Storage_Flash/Storage_Flash_SPI.c:402-427 | every `SPIFLASH_read` asks for 1 to max_len bytes; read never exceeds size and equals it exactly when the read succeeded |
| FlashChunks.ReadOutcomeBytes | components/Storage_Flash/Storage_Flash_SPI.c:404-427 | after a read that does not wrap, the dataport's first `read` bytes are the flash bytes from `offset` on and the rest is unchanged |
| FlashChunks.ReadYieldsFlash | components/Storage_Flash/Storage_Flash_SPI.c:404-427 | when every piece succeeds, the dataport's first `size` bytes are flash bytes `offset .. offset+size` |
| StorageFlash.ConfiguredGeometry | components/Storage_Flash/Storage_Flash_SPI.c:238-253 | the W25Q64 configuration has 8 MiB made of 256-byte pages |
| StorageFlash.FlashDriver.constructor | components/Storage_Flash/Storage_Flash_SPI.c:23-34 | the two distinct dataports are assigned and the component is not initialised |
| StorageFlash.FlashDriver.PostInit | components/Storage_Flash/Storage_Flash_SPI.c:233-284 | the component becomes initialised exactly when `SPIFLASH_init` completed its configuration |
| StorageFlash.FlashDriver.Write | components/Storage_Flash/Storage_Flash_SPI.c:290-362 | `INVALID_STATE`, then `INVALID_PARAMETER`, with no library call; otherwise `WriteOutcome`: the page-sized calls in order, up to and including the first rejected one, `GENERIC` on a rejection |
| StorageFlash.FlashDriver.Read | components/Storage_Flash/Storage_Flash_SPI.c:368-431 | the same error cases, with the dataport untouched; otherwise `ReadOutcome`: the bounded calls in order, the accepted pieces' flash bytes in the dataport, `GENERIC` on a rejection |
| StorageFlash.FlashDriver.Erase | components/Storage_Flash/Storage_Flash_SPI.c:437-464 | `INVALID_STATE` without a call; otherwise one `SPIFLASH_erase(offset, size)`, with `GENERIC` and erased 0 when it fails and erased equal to size when it succeeds |
| StorageFlash.FlashDriver.GetStorageSize | components/Storage_Flash/Storage_Flash_SPI.c:470-484 | 8388608 once initialised; `INVALID_STATE` before |
| StorageFlash.FlashDriver.GetState | components/Storage_Flash/Storage_Flash_SPI.c:490-503 | success with no flags once initialised; `INVALID_STATE` before |
| StorageFlash.FlashDriver.SpiTxRx | components/Storage_Flash/Storage_Flash_SPI.c:41-74 | lengths over the SPI dataport give -1 with nothing sent and the dataport untouched; otherwise the command is staged in the dataport, and the result is -1 with nothing sent whenever the SPI RPC rejects the request (driver not initialised, or its length checks); when it accepts, the transfer clocks out the command first, the result is 0 and `rx` receives the bytes clocked in after the command |
| StorageFlash.FlashDriver.SpiCs | components/Storage_Flash/Storage_Flash_SPI.c:79-94 | the chip select is forwarded to the SPI driver; a failure changes nothing |
| StorageFlash.WritePages | components/Storage_Flash/Storage_Flash_SPI.c:327-361 | the write loop meets `WriteOutcome` |
| StorageFlash.ReadChunked | components/Storage_Flash/Storage_Flash_SPI.c:402-427 | the read loop meets `ReadOutcome` |
| StorageFlash.FetchChunk | components/Storage_Flash/Storage_Flash_SPI.c:412-425 | one successful `SPIFLASH_read` adds the next piece's flash bytes to the dataport and extends the progress by one piece |
| Spi.TxRxCheckAsWritten | components/SPI/SPI.c:60-97 | the check chain as written succeeds exactly when initialised, 0 < tx_len ≤ port size, rx_len ≤ port size and tx_len + rx_len ≤ 4112; otherwise `INVALID_STATE` or `INVALID_PARAMETER` |
| Spi.TxRxAsWrittenOverReads | components/SPI/SPI.c:60-102 | with a 4096-byte dataport, tx 4096 and rx 16 pass the chain as written, while the corrected chain, which requires the transfer to fit the dataport, rejects them with `INVALID_PARAMETER` |
| Spi.TxRxCheck | components/SPI/SPI.c:60-97 | the corrected chain succeeds exactly when, in addition, the whole transfer fits the dataport |
| Spi.TxRxCheckAgrees | components/SPI/SPI.c:60-97 | the corrected and as-written chains differ if and only if the request passes every written check and is longer than the dataport |
| Spi.Received | components/SPI/SPI.c:99-102 | the bytes a transfer clocks in, byte `i` being `miso(i)` |
| Spi.ChipSelectFor | components/SPI/SPI.c:122 | a non-zero argument selects CS0 and zero selects CS2 |
| Spi.SpiDriver.constructor | components/SPI/SPI.c:21-27 | the driver is not initialised, its dataport is assigned and its receive buffer is 4112 bytes |
| Spi.SpiDriver.PostInit | components/SPI/SPI.c:30-50 | a successful `bcm2837_spi_begin` programs MSB first, mode 0, divider 8, CS0 active low and sets `init_ok`; a failure changes nothing |
| Spi.SpiDriver.Transfer | components/SPI/SPI.c:99-102 | the transfer sends the dataport's first `n` bytes and stores the received bytes at the start of the receive buffer |
| Spi.SpiDriver.TxRx | components/SPI/SPI.c:55-107 | the result is the corrected check's verdict; a failure leaves both buffers untouched and sends nothing; a success sends the dataport's first tx+rx bytes and writes the bytes received after the command to the dataport's start |
| Spi.SpiDriver.ChipSelect | components/SPI/SPI.c:112-125 | `INVALID_STATE` with nothing changed before initialisation; otherwise success, with only the chip select reprogrammed |
| ChanMux.WatermarkBelowCapacity | components/ChanMux/ChanMux.c:190-191 | the watermark lies below any positive capacity, so a full FIFO is above it; for 2048 bytes it is 1536 |
| ChanMux.ProcessCount | components/ChanMux/ChanMux.c:204-217 | one process phase hands over `1 + boost` bytes, or fewer when the FIFO runs empty, and at least one byte when it is not empty |
| ChanMux.CharFifo.constructor | components/ChanMux/ChanMux.c:127-133 | the internal FIFO starts empty, with the given capacity |
| ChanMux.CharFifo.First | components/ChanMux/ChanMux.c:207-211 | the oldest byte, or NULL exactly when the FIFO is empty |
| ChanMux.CharFifo.Push | components/ChanMux/ChanMux.c:178-181 | the push succeeds exactly when the FIFO is not full, and the byte is appended only then |
| ChanMux.CharFifo.Pop | components/ChanMux/ChanMux.c:214 | the oldest byte is dropped |
| ChanMux.FifoPort.Consecutives | components/ChanMux/ChanMux.c:166-171 | the contiguous amount available is zero exactly when the dataport FIFO is empty, and never more than it holds |
| ChanMux.FifoPort.First | components/ChanMux/ChanMux.c:173-174 | the first contiguous run is a prefix of the pending bytes, `Consecutives` long |
| ChanMux.FifoPort.Remove | components/ChanMux/ChanMux.c:186 | removing `n` bytes drops exactly the `n` oldest |
| ChanMux.FifoPort.Produce | components/ChanMux/ChanMux.c:150-152 | while the loop waits the producer appends its bytes and may raise the flag in the last dataport byte |
| ChanMux.RunAfterAppend | components/ChanMux/ChanMux.c:166-174 | after an append, the first run never shrinks, a ring that has already wrapped keeps it, and a non-empty FIFO has a non-empty first run |
| ChanMux.CopyConsecutive | components/ChanMux/ChanMux.c:175-186 | the do-while copies `min(avail, free space)` bytes of the run in order, and stops early only when the FIFO is full |
| ChanMux.DrainPass | components/ChanMux/ChanMux.c:172-186 | one pass copies as much of the first run as fits and removes it: no byte is lost or reordered, the internal FIFO stays within capacity and becomes non-empty, and either the dataport FIFO shrinks or the internal FIFO is full |
| ChanMux.Drained | components/ChanMux/ChanMux.c:163-202 | the reference drain, which makes passes until the first one that lifts occupancy above the watermark: no byte is lost or reordered, the internal FIFO only grows and stays within capacity, boost 0 leaves the dataport FIFO empty with occupancy at most the watermark (or nothing copied), and a positive boost is the excess over the watermark |
| ChanMux.DrainStopsAboveWatermark | components/ChanMux/ChanMux.c:188-217 | with capacity 8 and 9 pending bytes whose first run is 7, the drain copies the 7 bytes, leaves 2 pending with boost 1, and the process phase hands over 2 bytes |
| ChanMux.Drain | components/ChanMux/ChanMux.c:161-202 | the drain loop ends in exactly the state `Drained` defines (internal FIFO, dataport FIFO, first run, boost); hence no byte is lost or reordered, and the drain ends with the dataport FIFO empty (boost 0) or with boost equal to the excess over the watermark |
| ChanMux.Process | components/ChanMux/ChanMux.c:204-217 | exactly the `ProcessCount` oldest bytes are handed to the engine, in order, and removed |
| ChanMux.Iterate | components/ChanMux/ChanMux.c:159-217 | across one drain and one process phase, handed + internal + dataport bytes are what the two FIFOs held before, and some byte is handed over when there was any |
| ChanMux.WaitForData | components/ChanMux/ChanMux.c:139-153 | the loop waits only with both FIFOs empty and the flag clear; the wait brings the producer's bytes, and the flag is set exactly when the producer overflowed |
| ChanMux.Serve | components/ChanMux/ChanMux.c:137-218 | every byte that arrives is handed to the engine exactly once, in order; the loop ends only with both FIFOs empty, returning -1 when the overflow flag is set, else blocked in the wait; a flag already set on entry returns -1 before any wait; no wait follows an event that raised the flag; the result is -1 exactly when the flag was set on entry or some consumed event raised it |
| ChanMux.Run | components/ChanMux/ChanMux.c:114-219 | a failed `CharFifo_ctor` returns -1 and changes nothing; otherwise the singleton is set up and the loop ends as `Serve` states, with everything that arrived handed over and the same overflow-exit clauses |
| ChanMux.Engine.Construct | components/ChanMux/ChanMux.c:39-43 | `ChanMux_ctor` records its outcome and the lower channel's dataport |
| ChanMux.Component.constructor | components/ChanMux/ChanMux.c:27-28 | at program start `self` is NULL and the constructor has not run |
| ChanMux.Component.GetInstance | components/ChanMux/ChanMux.c:17-49 | the constructor runs only while `self` is NULL; a failure returns NULL and leaves `self` NULL; once set, the same instance comes back unchanged |
| ChanMux.Component.PreInit | components/ChanMux/ChanMux.c:102-110 | `pre_init` constructs the instance once |
| ChanMux.Component.RpcWrite | components/ChanMux/ChanMux.c:63-75 | `ChanMux_write` is called on the singleton (or NULL) with the sender, channel and length, and its answer is returned |
| ChanMux.Component.RpcRead | components/ChanMux/ChanMux.c:80-92 | `ChanMux_read` is called the same way and its answer is returned |

## Left out

- The engine and libraries are not modelled: the ChanMux engine (`ChanMux_ctor`, `ChanMux_takeByte`, `ChanMux_write`, `ChanMux_read`), the `CharFifo` and `FifoDataport` libraries, the SPI flash library, `bcm2837_spi_*` and the RLE decompressor. Their answers are parameters and their effects are stated in the callers' terms.
- Concurrency is not modelled. The producer of the ChanMux dataport FIFO runs concurrently in the system, but the model applies what it does only at the wait point, as one event per wait. The dataport FIFO's memory layout is abstracted as its pending bytes plus the length of their first contiguous run, and the bytes themselves are not placed in the dataport.
- ChanMux.Run: `run()` never returns while data keeps arriving. The model takes a finite list of producer events and reports `Blocked` when the list is used up at a wait.
- ChanMux.Process: the bytes handed to `ChanMux_takeByte` are a ghost result. What the engine does with them is not modelled.
- ChanMux.Component.RpcWrite: the sender id is a parameter. When construction fails, the NULL instance is forwarded as `None`, and what `ChanMux_write` then does is not modelled.
- ChanMux.FifoPort.Valid: a dataport FIFO of size 0 (an overflow flag outside the buffer) is excluded.
- Debug logging is left out.
- `impl_spiflash_wait` and the TimeServer are left out: a delay has no effect on the state modelled.
- StorageFlash.FlashDriver.Write: the flash page size is fixed at the configured 256 bytes. `offset & (page_sz - 1)` is written as a remainder, which agrees for powers of two.
- `size_t` is modelled as 64-bit. `offset + size_already_written` wraps as `SizeWrap`.
- StorageFlash.FlashDriver.Read: the bytes come from a function of the flash address. A rejected `SPIFLASH_read` is assumed to leave its piece of the dataport untouched.
- StorageFlash.FlashDriver.constructor: an SPI dataport of at most 8 bytes is excluded, so the read piece length `spi size - 8` is positive.
- The library calls (`calls`) and the bytes clocked out on SPI (`sent`) are ghost results, so contracts that mention them do not restrict the computed values.
- Spi.SpiDriver.TxRx: it uses the corrected check `TxRxCheck` (see Findings). The chain as written is `TxRxCheckAsWritten`.
- StorageFlash.FlashDriver.SpiTxRx: it calls `Spi.SpiDriver.TxRx` and so inherits the corrected check `TxRxCheck`. On an initialised driver, a request with 0 < tx, tx and rx each within the SPI dataport, and tx + rx longer than it but at most 4112, gives -1 here, where the source as written gets `OS_SUCCESS` from the SPI driver and returns 0.
- RamDisk.Disk.PostInit: the decompressor's output is a parameter. Its size is bounded by the storage, so the RLE format itself is not modelled.
- The other components (UART, NIC_ChanMux) and the build scripts are not part of this model.

## Findings

| source | as written | input that shows it | evidently intended | confidence | as-written member | corrected member |
|---|---|---|---|---|---|---|
| components/SPI/SPI.c:60-102 | each of `tx_len` and `rx_len` is checked against the dataport size, and their sum only against the 4112-byte receive buffer, while `bcm2837_spi_transfernb` reads `tx_len + rx_len` bytes from the dataport | 4096-byte dataport, `tx_len = 4096`, `rx_len = 16`: every check passes and the transfer reads 16 bytes past the dataport | the whole transfer `tx_len + rx_len` must fit the dataport | not executed | Spi.TxRxAsWrittenOverReads | Spi.TxRxCheck |
