/** The layers beneath the RDP engine (security and multipoint session
    layers over the socket), reduced to what the engine can observe: a
    script of inbound PDUs, a socket that accepts a limited number of
    further writes, and the log of everything sent. */
module Transport {
  import opened Bytes
  import opened Protocol
  import opened ShareHeaders
  import opened Packets

  /** One receive by a lower layer: a PDU with the security flags (for a
      security-layer receive) and the channel it came on, and its body; or
      a failed receive (short read, reset connection, bad framing). */
  datatype Inbound = Arrived(flags: u16, channel: u16, body: seq<u8>) | Broken

  /** One send by a lower layer: an MCS Send Data Indication on `channel`,
      or a security-layer PDU with its flags, carrying `bytes`. */
  datatype Outbound =
    | McsData(channel: u16, bytes: seq<u8>)
    | SecData(flags: u16, channel: u16, bytes: seq<u8>)

  /** Fields the engine reads from a received share PDU without checking
      that they arrived.  Every receive reads the data header of a PDU that
      announces one (rdp.c:424, through DataHeaderPresent); the two control
      steps of connection finalization read the action right after it
      (rdp.c:157, 182); the dispatcher reads the suppress-output flag and,
      when it allows updates, the rectangle behind it (rdp.c:574-582). */
  predicate ControlActionPresent(s: seq<u8>)
  {
    && DataHeaderPresent(s)
    && (AnnouncesData(s) && |s| >= SHARE_DATA_HEADER_SIZE && s[14] == PDUTYPE2_CONTROL ==>
          |s| >= SHARE_DATA_HEADER_SIZE + 2)
  }

  predicate SharePduComplete(s: seq<u8>)
  {
    && DataHeaderPresent(s)
    && (AnnouncesData(s) && |s| >= SHARE_DATA_HEADER_SIZE && s[14] == PDUTYPE2_SUPPRESS_OUTPUT ==>
          |s| >= SHARE_DATA_HEADER_SIZE + 1
          && (s[SHARE_DATA_HEADER_SIZE] == ALLOW_DISPLAY_UPDATES ==> |s| >= SHARE_DATA_HEADER_SIZE + 9))
  }

  /** The same, for an inbound entry: a failed receive reads nothing. */
  predicate HeaderArrives(x: Inbound)
  {
    x.Arrived? ==> DataHeaderPresent(x.body)
  }

  predicate ActionArrives(x: Inbound)
  {
    x.Arrived? ==> ControlActionPresent(x.body)
  }

  predicate Complete(x: Inbound)
  {
    x.Arrived? ==> SharePduComplete(x.body)
  }

  /** The script after one receive: a receive always takes the next entry. */
  function Rest(q: seq<Inbound>): seq<Inbound>
  {
    if q == [] then [] else q[1..]
  }

  /** A receive into a buffer of `capacity` bytes succeeds when the next
      entry is a PDU whose body fits the buffer. */
  predicate Delivers(q: seq<Inbound>, capacity: nat)
  {
    q != [] && q[0].Arrived? && |q[0].body| <= capacity
  }

  class Link {
    /** The user channel the multipoint layer assigned to the client. */
    const userChannelId: u16
    /** The header room the multipoint layer reserves before its payload,
        and the room the security layer reserves (its header included). */
    const mcsRoom: nat
    const secRoom: nat
    var inbound: seq<Inbound>
    /** How many more writes the socket accepts before it fails. */
    var sendsLeft: nat
    var sent: seq<Outbound>

    constructor (userChannelId: u16, mcsRoom: nat, secRoom: nat, inbound: seq<Inbound>, sendsLeft: nat)
      ensures this.userChannelId == userChannelId && this.mcsRoom == mcsRoom && this.secRoom == secRoom
      ensures this.inbound == inbound && this.sendsLeft == sendsLeft && sent == []
    {
      this.userChannelId, this.mcsRoom, this.secRoom := userChannelId, mcsRoom, secRoom;
      this.inbound, this.sendsLeft, this.sent := inbound, sendsLeft, [];
    }

    /** Prepares `p` for an MCS payload: the cursor and the payload origin
        move past the multipoint header room. */
    method InitMcs(p: Packet)
      requires p.Valid() && mcsRoom <= p.data.Length
      modifies p`payload, p`current
      ensures p.Valid() && p.payload == mcsRoom && p.current == mcsRoom
    {
      p.payload, p.current := mcsRoom, mcsRoom;
    }

    /** Prepares `p` for a security-layer payload. */
    method InitSec(p: Packet)
      requires p.Valid() && secRoom <= p.data.Length
      modifies p`payload, p`current
      ensures p.Valid() && p.payload == secRoom && p.current == secRoom
    {
      p.payload, p.current := secRoom, secRoom;
    }

    /** Takes the next inbound entry and, when it is a PDU that fits,
        places its body at the front of `p` with the cursor on its first
        byte and the end after its last. */
    method Receive(p: Packet) returns (ok: bool, flags: u16, channel: u16)
      requires p.Valid()
      modifies this`inbound, p`current, p`end, p.data
      ensures p.Valid()
      ensures inbound == Rest(old(inbound))
      ensures ok == Delivers(old(inbound), p.data.Length)
      ensures ok ==> var x := old(inbound)[0];
        && flags == x.flags && channel == x.channel
        && p.current == 0 && p.end == |x.body| && p.data[..p.end] == x.body
    {
      ok, flags, channel := false, 0, 0;
      if inbound == [] {
        return;
      }
      var x := inbound[0];
      inbound := inbound[1..];
      if x.Broken? || |x.body| > p.data.Length {
        return;
      }
      forall i | 0 <= i < |x.body| {
        p.data[i] := x.body[i];
      }
      ok, flags, channel := true, x.flags, x.channel;
      p.current, p.end := 0, |x.body|;
    }

    /** Sends the multipoint payload of `p` on `channel`, if the socket
        still accepts a write. */
    method SendMcs(p: Packet, channel: u16) returns (ok: bool)
      requires p.Valid() && p.payload <= p.end
      modifies this`sendsLeft, this`sent
      ensures ok == (old(sendsLeft) > 0)
      ensures sendsLeft == if ok then old(sendsLeft) - 1 else old(sendsLeft)
      ensures sent == old(sent) + if ok then [McsData(channel, p.data[p.payload..p.end])] else []
    {
      ok := sendsLeft > 0;
      if ok {
        sendsLeft := sendsLeft - 1;
        sent := sent + [McsData(channel, p.data[p.payload..p.end])];
      }
    }

    /** Sends the security-layer payload of `p` with `flags` on `channel`. */
    method SendSec(p: Packet, flags: u16, channel: u16) returns (ok: bool)
      requires p.Valid() && p.payload <= p.end
      modifies this`sendsLeft, this`sent
      ensures ok == (old(sendsLeft) > 0)
      ensures sendsLeft == if ok then old(sendsLeft) - 1 else old(sendsLeft)
      ensures sent == old(sent) + if ok then [SecData(flags, channel, p.data[p.payload..p.end])] else []
    {
      ok := sendsLeft > 0;
      if ok {
        sendsLeft := sendsLeft - 1;
        sent := sent + [SecData(flags, channel, p.data[p.payload..p.end])];
      }
    }
  }
}
