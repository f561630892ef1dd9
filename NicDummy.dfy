/**
 * The stub network driver: it never receives, accepts every transmit request
 * and reports a fixed MAC address through its dataport.
 */
module NicDummy {
  import opened OsError
  import opened OsDataport

  /** The MAC address the stub reports: 00:11:22:33:44:55. */
  const DummyMac: seq<uint8> := [0x00, 0x11, 0x22, 0x33, 0x44, 0x55]

  class Nic {
    /** The dataport towards the network stack (`nic_port_to`). */
    const port: Dataport

    constructor (portTo: array<uint8>)
      ensures port == Assign(portTo)
    {
      port := Assign(portTo);
    }

    /** `nic_rpc_rx_data`: not implemented; neither `*pLen` nor `*framesRemaining` is written. */
    method RxData(pLen: nat, framesRemaining: nat) returns (err: OsError, pLenOut: nat, framesRemainingOut: nat)
      ensures err == Err(NotImplemented) && Code(err) == -2
      ensures pLenOut == pLen && framesRemainingOut == framesRemaining
    {
      HandlerCodes();
      return Err(NotImplemented), pLen, framesRemaining;
    }

    /** `nic_rpc_tx_data`: the frame is accepted and dropped; `*pLen` is left as it is. */
    method TxData(pLen: nat) returns (err: OsError, pLenOut: nat)
      ensures err == Success && Code(err) == 0
      ensures pLenOut == pLen
    {
      SuccessAndGenericCodes();
      return Success, pLen;
    }

    /** `nic_rpc_get_mac_address`: the first six dataport bytes become the dummy MAC, the rest stays. */
    method GetMacAddress() returns (err: OsError)
      requires port.io.Some? && |DummyMac| <= GetSize(port) == GetBuf(port).Length
      modifies GetBuf(port)
      ensures err == Success
      ensures GetBuf(port)[..6] == DummyMac
      ensures GetBuf(port)[6..] == old(GetBuf(port)[6..])
    {
      var buf := GetBuf(port);
      Copy(buf, 0, DummyMac);
      OverwriteProperties(old(buf[..]), 0, DummyMac);
      assert buf[..][..6] == DummyMac;
      assert buf[..][6..] == old(buf[..])[6..];
      return Success;
    }
  }
}
