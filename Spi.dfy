/**
 * The SPI driver component. `spi_rpc_txrx` checks the requested lengths,
 * clocks `tx_len + rx_len` bytes out of the dataport while clocking the
 * same number into a static receive buffer, and copies the part received
 * after the command back into the dataport. `spi_rpc_cs` selects a chip.
 *
 * The transfer itself (`bcm2837_spi_transfernb`) is hardware: the bytes it
 * clocks in are given by a parameter `miso`, byte `i` of a transfer being
 * `miso(i)`.
 */
module Spi {
  import opened OsError
  import opened OsDataport

  /** `sizeof(rx_buffer)`: a 4096-byte dataport plus 16 bytes of protocol overhead. */
  const RxBufferSize: nat := 4096 + 16

  /** `tx_len + rx_len` in `size_t`, which wraps. */
  function SizeAdd(a: nat, b: nat): nat
    requires a <= SizeMax && b <= SizeMax
  {
    (a + b) % (SizeMax + 1)
  }

  /**
   * The check chain of `spi_rpc_txrx` as written: initialisation, each length
   * against the dataport, wrap-around of the sum, the sum against the receive
   * buffer, and a zero-length command, in that order.
   */
  function TxRxCheckAsWritten(initOk: bool, txLen: nat, rxLen: nat, portSize: nat): (r: OsError)
    requires txLen <= SizeMax && rxLen <= SizeMax
    ensures r == Success <==>
      initOk && 0 < txLen <= portSize && rxLen <= portSize && txLen + rxLen <= RxBufferSize
    ensures r != Success ==> r == (if initOk then Err(InvalidParameter) else Err(InvalidState))
  {
    if !initOk then Err(InvalidState)
    else if txLen > portSize then Err(InvalidParameter)
    else if rxLen > portSize then Err(InvalidParameter)
    else if SizeAdd(txLen, rxLen) < txLen then Err(InvalidParameter)
    else if SizeAdd(txLen, rxLen) > RxBufferSize then Err(InvalidParameter)
    else if txLen == 0 then Err(InvalidParameter)
    else Success
  }

  /**
   * The chain as written accepts a transfer longer than the dataport: with a
   * 4096-byte dataport, `tx_len = 4096, rx_len = 16` passes every check,
   * although the 4112-byte transfer does not fit the dataport it is clocked
   * out of, which is exactly what the corrected chain rejects.
   */
  lemma TxRxAsWrittenOverReads()
    ensures TxRxCheckAsWritten(true, 4096, 16, 4096) == Success
    ensures TxRxCheck(true, 4096, 16, 4096) == Err(InvalidParameter)
  {
  }

  /**
   * The chain with the missing check added: the whole transfer must fit the
   * dataport it is clocked out of. Everything else is as written.
   */
  function TxRxCheck(initOk: bool, txLen: nat, rxLen: nat, portSize: nat): (r: OsError)
    requires txLen <= SizeMax && rxLen <= SizeMax
    ensures r == Success <==>
      initOk && 0 < txLen && txLen + rxLen <= portSize && txLen + rxLen <= RxBufferSize
    ensures r != Success ==> r == (if initOk then Err(InvalidParameter) else Err(InvalidState))
  {
    if !initOk then Err(InvalidState)
    else if txLen > portSize then Err(InvalidParameter)
    else if rxLen > portSize then Err(InvalidParameter)
    else if SizeAdd(txLen, rxLen) < txLen then Err(InvalidParameter)
    else if SizeAdd(txLen, rxLen) > RxBufferSize then Err(InvalidParameter)
    else if SizeAdd(txLen, rxLen) > portSize then Err(InvalidParameter)
    else if txLen == 0 then Err(InvalidParameter)
    else Success
  }

  /** The corrected chain differs from the one written only on transfers longer than the dataport. */
  lemma TxRxCheckAgrees(initOk: bool, txLen: nat, rxLen: nat, portSize: nat)
    requires txLen <= SizeMax && rxLen <= SizeMax
    ensures TxRxCheck(initOk, txLen, rxLen, portSize) != TxRxCheckAsWritten(initOk, txLen, rxLen, portSize)
      <==> initOk && 0 < txLen <= portSize && rxLen <= portSize && portSize < txLen + rxLen <= RxBufferSize
  {
  }

  /** The bytes a transfer of `n` bytes clocks in. */
  function Received(miso: nat -> uint8, n: nat): (r: seq<uint8>)
    ensures |r| == n && forall i :: 0 <= i < n ==> r[i] == miso(i)
  {
    seq(n, (i: int) requires 0 <= i => miso(i))
  }

  /** The chip selects of the BCM2837 SPI controller. */
  datatype ChipSelect = Cs0 | Cs1 | Cs2

  /** `spi_rpc_cs`'s mapping: any non-zero `cs` selects CS0, zero selects CS2. */
  function ChipSelectFor(cs: nat): (r: ChipSelect)
    ensures r == Cs0 <==> cs != 0
    ensures r == Cs2 <==> cs == 0
  {
    if cs != 0 then Cs0 else Cs2
  }

  /** The controller settings `post_init` programs. */
  datatype Settings = Settings(msbFirst: bool, dataMode: nat, clockDivider: nat,
                               chipSelect: ChipSelect, cs0ActiveHigh: bool)

  const InitialSettings: Settings := Settings(true, 0, 8, Cs0, false)

  class SpiDriver {
    /** `spi_dataport`. */
    const port: Dataport
    /** `rx_buffer`. */
    const rxBuffer: array<uint8>
    /** `init_ok`. */
    var initOk: bool
    /** What the controller was last programmed with. */
    var settings: Settings

    ghost predicate Valid()
    {
      && port.io.Some? && Assigned(port) && GetBuf(port) != rxBuffer
      && rxBuffer.Length == RxBufferSize
    }

    constructor (spiPort: array<uint8>, hardware: Settings)
      ensures Valid() && fresh(rxBuffer) && port == Assign(spiPort)
      ensures !initOk && settings == hardware
    {
      port := Assign(spiPort);
      rxBuffer := new uint8[RxBufferSize];
      initOk := false;
      settings := hardware;
    }

    function Port(): array<uint8>
      requires Valid()
    {
      GetBuf(port)
    }

    /** `post_init`: `beginOk` is what `bcm2837_spi_begin` returned. */
    method PostInit(beginOk: bool)
      requires Valid()
      modifies this
      ensures Valid()
      ensures beginOk ==> initOk && settings == InitialSettings
      ensures !beginOk ==> initOk == old(initOk) && settings == old(settings)
    {
      if !beginOk {
        return;
      }
      settings := InitialSettings;
      initOk := true;
    }

    /**
     * `bcm2837_spi_transfernb(dataport, rx_buffer, n)`: full duplex, `n` bytes
     * each way; `sent` are the bytes clocked out.
     */
    method Transfer(n: nat, miso: nat -> uint8) returns (ghost sent: seq<uint8>)
      requires Valid() && n <= Port().Length && n <= rxBuffer.Length
      modifies rxBuffer
      ensures sent == Port()[..n]
      ensures rxBuffer[..] == Overwrite(old(rxBuffer[..]), 0, Received(miso, n))
    {
      sent := Port()[..n];
      Copy(rxBuffer, 0, Received(miso, n));
    }

    /**
     * `spi_rpc_txrx`, with the guard chain corrected as `TxRxCheck` states;
     * `sent` are the bytes clocked out, none when a check fails.
     */
    method TxRx(txLen: nat, rxLen: nat, miso: nat -> uint8) returns (err: OsError, ghost sent: seq<uint8>)
      requires Valid() && txLen <= SizeMax && rxLen <= SizeMax
      modifies rxBuffer, Port()
      ensures err == TxRxCheck(initOk, txLen, rxLen, GetSize(port))
      ensures err != Success ==> sent == [] && unchanged(rxBuffer) && unchanged(Port())
      ensures err == Success ==>
        && sent == old(Port()[..txLen + rxLen])
        && rxBuffer[..] == Overwrite(old(rxBuffer[..]), 0, Received(miso, txLen + rxLen))
        && Port()[..] == Overwrite(old(Port()[..]), 0, Received(miso, txLen + rxLen)[txLen..])
    {
      sent := [];
      err := TxRxCheck(initOk, txLen, rxLen, GetSize(port));
      if err != Success {
        return;
      }
      sent := Transfer(txLen + rxLen, miso);
      OverwriteProperties(old(rxBuffer[..]), 0, Received(miso, txLen + rxLen));
      assert rxBuffer[txLen..txLen + rxLen] == Received(miso, txLen + rxLen)[txLen..];
      Copy(GetBuf(port), 0, rxBuffer[txLen..txLen + rxLen]);
    }

    /** `spi_rpc_cs`. */
    method ChipSelect(cs: nat) returns (err: OsError)
      requires cs <= 0xFFFF_FFFF
      modifies this`settings
      ensures !initOk ==> err == Err(InvalidState) && settings == old(settings)
      ensures initOk ==> err == Success && settings == old(settings).(chipSelect := ChipSelectFor(cs))
    {
      if !initOk {
        return Err(InvalidState);
      }
      settings := settings.(chipSelect := ChipSelectFor(cs));
      return Success;
    }
  }
}
