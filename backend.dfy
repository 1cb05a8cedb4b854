/** The VNC side as the RDP engine sees it: the framebuffer size, and
    framebuffer update requests that are recorded and may fail. */
module Backend {
  import opened Bytes

  datatype UpdateRequest = UpdateRequest(incremental: u8, x: u16, y: u16, width: u16, height: u16)

  class Vnc {
    const framebufferWidth: u16
    const framebufferHeight: u16
    var requests: seq<UpdateRequest>
    /** How many more requests the VNC connection accepts before it fails. */
    var sendsLeft: nat

    constructor (framebufferWidth: u16, framebufferHeight: u16, sendsLeft: nat)
      ensures this.framebufferWidth == framebufferWidth && this.framebufferHeight == framebufferHeight
      ensures requests == [] && this.sendsLeft == sendsLeft
    {
      this.framebufferWidth, this.framebufferHeight := framebufferWidth, framebufferHeight;
      requests, this.sendsLeft := [], sendsLeft;
    }

    method SendUpdateRequest(incremental: u8, x: u16, y: u16, width: u16, height: u16) returns (ok: bool)
      modifies this`requests, this`sendsLeft
      ensures ok == (old(sendsLeft) > 0)
      ensures sendsLeft == if ok then old(sendsLeft) - 1 else old(sendsLeft)
      ensures requests == old(requests) + if ok then [UpdateRequest(incremental, x, y, width, height)] else []
    {
      ok := sendsLeft > 0;
      if ok {
        sendsLeft := sendsLeft - 1;
        requests := requests + [UpdateRequest(incremental, x, y, width, height)];
      }
    }
  }
}
