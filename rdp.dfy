/** The RDP layer of the proxy: one session with a client, its packet
    buffer, the lower layers it sends and receives through, and the VNC
    connection it forwards screen requests to.  The session frames share
    PDUs, runs the connection-finalization handshake, sends screen updates,
    and dispatches the PDUs the client sends afterwards. */
module Rdp {
  import opened Bytes
  import opened Wrappers
  import opened Protocol
  import opened ShareHeaders
  import opened Pdus
  import opened Packets
  import opened Transport
  import opened Backend
  import opened Handshake
  import opened Dispatch

  /** The size of the session's packet and of the handshake's packet. */
  const SESSION_PACKET_SIZE: nat := 65535
  const HANDSHAKE_PACKET_SIZE: nat := 8192

  /** Five writes: chunk `a` at `at`, `b1 + b2` right behind it at
      `lengthAt`, `c` behind that at `countAt`, then `x` over `b1` and `t`
      behind `c`.  The window they leave reads `a + x + b2 + c + t`. */
  lemma WrittenPatched(s0: seq<u8>, s1: seq<u8>, s2: seq<u8>, s3: seq<u8>, s4: seq<u8>, s5: seq<u8>,
                       at: nat, lengthAt: nat, countAt: nat, tailAt: nat,
                       a: seq<u8>, b1: seq<u8>, b2: seq<u8>, c: seq<u8>, x: seq<u8>, t: seq<u8>)
    requires lengthAt == at + |a| && countAt == lengthAt + |b1| + |b2| && tailAt == countAt + |c|
    requires |x| == |b1| && tailAt + |t| <= |s0|
    requires s1 == Splice(s0, at, a)
    requires s2 == Splice(s1, lengthAt, b1 + b2)
    requires s3 == Splice(s2, countAt, c)
    requires s4 == Splice(s3, lengthAt, x)
    requires s5 == Splice(s4, tailAt, t)
    ensures s5[at..tailAt + |t|] == a + x + b2 + c + t
  {
    SpliceExtends(s1, at, lengthAt, b1 + b2);
    SpliceExtends(s2, at, countAt, c);
    assert s3[at..tailAt] == a + b1 + (b2 + c);
    SplicePatch(s3, at, a, b1, b2 + c, x);
    SpliceExtends(s4, at, tailAt, t);
  }

  /** The Demand Active body grouped as it is written. */
  lemma DemandActiveLayout(userChannelId: u16, numberCapabilities: u16, capabilitySets: seq<u8>)
    ensures DemandActiveBody(userChannelId, numberCapabilities, capabilitySets)
      == LE32(0x1000 + userChannelId) + LE16(|SOURCE_DESCRIPTOR|) + LE16(CombinedCapabilitiesLength(capabilitySets))
         + SOURCE_DESCRIPTOR + (LE16(numberCapabilities) + LE16(0) + capabilitySets) + LE32(0)
    ensures CombinedCapabilitiesLength(capabilitySets) == |LE16(numberCapabilities) + LE16(0) + capabilitySets| % 0x1_0000
  {
  }

  class RdpSession {
    const link: Link
    const packet: Packet
    const vnc: Vnc
    /** The capability catalog's output: how many capability sets it
        writes, and their bytes. */
    const numberCapabilities: u16
    const capabilitySets: seq<u8>
    /** Whether the input translator accepts a run of input events. */
    const inputAccepts: seq<u8> -> bool
    /** The client's latest display-update flag. */
    var allowDisplayUpdates: u8
    /** The input events handed to the translator, in order. */
    var inputs: seq<seq<u8>>

    ghost predicate Valid()
      reads this, link, packet
    {
      packet.Valid() && packet.data.Length == SESSION_PACKET_SIZE
    }

    constructor (link: Link, vnc: Vnc, numberCapabilities: u16, capabilitySets: seq<u8>, inputAccepts: seq<u8> -> bool)
      ensures Valid() && fresh(packet) && fresh(packet.data)
      ensures this.link == link && this.vnc == vnc && this.inputAccepts == inputAccepts
      ensures this.numberCapabilities == numberCapabilities && this.capabilitySets == capabilitySets
      ensures allowDisplayUpdates == ALLOW_DISPLAY_UPDATES && inputs == []
    {
      this.link, this.vnc, this.inputAccepts := link, vnc, inputAccepts;
      this.numberCapabilities, this.capabilitySets := numberCapabilities, capabilitySets;
      packet := new Packet(SESSION_PACKET_SIZE);
      allowDisplayUpdates, inputs := ALLOW_DISPLAY_UPDATES, [];
    }

    /** What the handshake steps depend on, for a packet of `capacity` bytes. */
    function Cfg(capacity: nat): Config
    {
      Config(link.userChannelId, numberCapabilities, capabilitySets, capacity)
    }

    /** A packet of `capacity` bytes has room for every PDU the handshake
        sends behind the lower layers' header room; the writers do not
        check for room. */
    predicate Fits(capacity: nat)
    {
      link.secRoom + 16 <= capacity && link.mcsRoom + 26 + |capabilitySets| <= capacity
    }

    /** A send of `wire` happened exactly when the socket still accepted a
        write, and then it took one write and logged `wire`. */
    ghost predicate Sent(ok: bool, sendsLeft0: nat, sent0: seq<Outbound>, wire: Outbound)
      reads link
    {
      && ok == (sendsLeft0 > 0)
      && link.sendsLeft == (if ok then sendsLeft0 - 1 else sendsLeft0)
      && link.sent == sent0 + if ok then [wire] else []
    }

    ghost predicate Ready(p: Packet)
      reads link, p
    {
      p.Valid() && Fits(p.data.Length)
    }

    /* ---------- Connection finalization ---------- */

    /** The link as the handshake's reference run sees it. */
    ghost function LinkEnv(): Env
      reads link
    {
      Env(link.inbound, link.sendsLeft, link.sent)
    }

    /** The link is where the reference run of the first `k` steps of the
        handshake, from `e0`, leaves it; `ok` says whether those steps
        succeeded. */
    ghost predicate At(k: nat, ok: bool, e0: Env, c: Config)
      reads link
    {
      k <= |Order| && Run(Order[..k], e0, c) == Outcome(ok, LinkEnv())
    }

    /** The handshake on a fresh 8192-byte packet: the twelve steps in
        order, skipping the rest once one fails.  Whether it succeeds, what
        it consumes and what it puts on the wire are what the reference run
        of the steps gives. */
    method BuildConn() returns (ok: bool)
      requires Fits(HANDSHAKE_PACKET_SIZE) && Readable(link.inbound)
      modifies link`inbound, link`sendsLeft, link`sent
      ensures Outcome(ok, LinkEnv()) == Run(Order, old(LinkEnv()), Cfg(HANDSHAKE_PACKET_SIZE))
    {
      var p := new Packet(HANDSHAKE_PACKET_SIZE);
      ghost var e0 := LinkEnv();
      ghost var ran := 0;  // how many steps have run
      assert Order[..0] == [];
      ok := true;
      ok, ran := Attempt(p, 0, ok, ran, e0);   // client info
      ok, ran := Attempt(p, 1, ok, ran, e0);   // license error
      ok, ran := Attempt(p, 2, ok, ran, e0);   // demand active
      ok, ran := Attempt(p, 3, ok, ran, e0);   // confirm active
      ok, ran := Attempt(p, 4, ok, ran, e0);   // synchronize
      ok, ran := Attempt(p, 5, ok, ran, e0);   // control cooperate
      ok, ran := Attempt(p, 6, ok, ran, e0);   // control request
      ok, ran := Attempt(p, 7, ok, ran, e0);   // font list
      ok, ran := Attempt(p, 8, ok, ran, e0);   // synchronize
      ok, ran := Attempt(p, 9, ok, ran, e0);   // control cooperate
      ok, ran := Attempt(p, 10, ok, ran, e0);  // control grant
      ok, ran := Attempt(p, 11, ok, ran, e0);  // font map
      Stop(ran, e0, Cfg(p.data.Length));
    }

    /** Of the first `k` steps, the first `ran` have run from `e0` and left
        the link where the reference run leaves it, and either all `k` ran
        or the last one that ran failed. */
    ghost predicate Upto(k: nat, ran: nat, ok: bool, e0: Env, c: Config)
      reads link
    {
      ran <= k && At(ran, ok, e0, c) && (ran == k || !ok)
    }

    /** Step `k` if every step before it succeeded; once one has failed,
        the remaining steps are skipped. */
    method Attempt(p: Packet, k: nat, ok0: bool, ghost ran0: nat, ghost e0: Env) returns (ok: bool, ghost ran: nat)
      requires k < |Order| && Ready(p) && Upto(k, ran0, ok0, e0, Cfg(p.data.Length)) && Readable(e0.inbound)
      modifies p, p.data, link`inbound, link`sendsLeft, link`sent
      ensures Ready(p) && Upto(k + 1, ran, ok, e0, Cfg(p.data.Length))
    {
      if ok0 {
        NextReads(k, e0, Cfg(p.data.Length));
        ok := PerformStep(p, k, e0);
        ran := k + 1;
      } else {
        ok, ran := false, ran0;
      }
    }

    /** Once the run has failed after `k` steps, or has run all twelve,
        the whole run ends where the first `k` steps left it. */
    lemma Stop(k: nat, e0: Env, c: Config)
      requires k <= |Order| && (k == |Order| || !Run(Order[..k], e0, c).ok)
      ensures Run(Order, e0, c) == Run(Order[..k], e0, c)
    {
      if k == |Order| {
        assert Order[..k] == Order;
      } else {
        RunStopped(Order, k, e0, c);
      }
    }

    /** Step `k` of the handshake, by the method that implements it: it
        takes the link from where the first `k` steps left it to where the
        first `k + 1` leave it. */
    method PerformStep(p: Packet, k: nat, ghost e0: Env) returns (ok: bool)
      requires k < |Order| && Ready(p) && At(k, true, e0, Cfg(p.data.Length))
      requires ReadsNext(Order[k], link.inbound)
      modifies p, p.data, link`inbound, link`sendsLeft, link`sent
      ensures Ready(p) && At(k + 1, ok, e0, Cfg(p.data.Length))
    {
      ghost var e := LinkEnv();
      RunExtend(Order, k, e0, e, Cfg(p.data.Length));
      OrderSteps();
      if Order[k].IsReceive() {
        ok := PerformReceive(p, k);
      } else {
        ok := PerformSend(p, k);
      }
    }

    /** Receive step `k`, by the method that implements it. */
    method PerformReceive(p: Packet, k: nat) returns (ok: bool)
      requires k < |Order| && Order[k].IsReceive() && Ready(p) && ReadsNext(Order[k], link.inbound)
      modifies p`current, p`end, p.data, link`inbound
      ensures Ready(p) && Apply(Order[k], old(LinkEnv()), Cfg(p.data.Length)) == Outcome(ok, LinkEnv())
    {
      match Order[k] {
        case RecvClientInfo => ok := RecvClientInfo(p);
        case RecvConfirmActive => ok := RecvConfirmActive(p);
        case RecvSynchronize => ok := RecvSynchronize(p);
        case RecvControlCooperate => ok := RecvControlCooperate(p);
        case RecvControlRequest => ok := RecvControlRequest(p);
        case RecvFontList => ok := RecvFontList(p);
      }
    }

    /** Send step `k`, by the method that implements it. */
    method PerformSend(p: Packet, k: nat) returns (ok: bool)
      requires k < |Order| && !Order[k].IsReceive() && Ready(p)
      modifies p, p.data, link`sendsLeft, link`sent
      ensures Ready(p) && Apply(Order[k], old(LinkEnv()), Cfg(p.data.Length)) == Outcome(ok, LinkEnv())
    {
      match Order[k] {
        case SendLicenseError => ok := SendLicenseError(p);
        case SendDemandActive => ok := SendDemandActive(p);
        case SendSynchronize => ok := SendSynchronize(p);
        case SendControlCooperate => ok := SendControlCooperate(p);
        case SendControlGrant => ok := SendControlGrant(p);
        case SendFontMap => ok := SendFontMap(p);
      }
    }

    /* ---------- Screen updates ---------- */

    /** A Bitmap Update with one rectangle: the destination edges, the
        bitmap's size and depth, and the first `bitmapLength` bytes of
        `bitmapData`, sent as an update data PDU.  The writers do not check
        for room, so the PDU must fit the session's packet. */
    method SendBitmapUpdate(left: u16, top: u16, right: u16, bottom: u16,
                            width: u16, height: u16, bpp: u16,
                            bitmapLength: u16, bitmapData: seq<u8>) returns (ok: bool)
      requires Valid() && bitmapLength as int <= |bitmapData|
      requires link.mcsRoom + SHARE_DATA_HEADER_SIZE + 22 + bitmapLength as int <= SESSION_PACKET_SIZE
      modifies packet, packet.data, link`sendsLeft, link`sent
      ensures Valid() && Sent(ok, old(link.sendsLeft), old(link.sent),
                McsData(MCS_IO_CHANNEL_ID, SharePdu(PDUTYPE_DATAPDU, PDUTYPE2_UPDATE, link.userChannelId,
                  BitmapUpdateBody(left, top, right, bottom, width, height, bpp, bitmapLength, bitmapData))))
    {
      ok := SendShare(packet, PDUTYPE_DATAPDU, PDUTYPE2_UPDATE,
                      BitmapUpdateBody(left, top, right, bottom, width, height, bpp, bitmapLength, bitmapData));
    }

    /** An orders update carrying one ScrBlt order that copies the
        `width` by `height` rectangle at (`xSrc`, `ySrc`) to (`left`, `top`). */
    method SendScrBltOrder(left: u16, top: u16, width: u16, height: u16, xSrc: u16, ySrc: u16) returns (ok: bool)
      requires Valid() && link.mcsRoom + SHARE_DATA_HEADER_SIZE + 24 <= SESSION_PACKET_SIZE
      modifies packet, packet.data, link`sendsLeft, link`sent
      ensures Valid() && Sent(ok, old(link.sendsLeft), old(link.sent),
                McsData(MCS_IO_CHANNEL_ID, SharePdu(PDUTYPE_DATAPDU, PDUTYPE2_UPDATE, link.userChannelId,
                  ScrBltOrderBody(ScrBlt(left, top, width, height, xSrc, ySrc)))))
    {
      ok := SendShare(packet, PDUTYPE_DATAPDU, PDUTYPE2_UPDATE, ScrBltOrderBody(ScrBlt(left, top, width, height, xSrc, ySrc)));
    }

    /* ---------- Dispatch ---------- */

    /** The session's state changed as reaction `r` prescribes, and `ok`
        says whether the connection survives it: input events go to the
        translator, a Suppress Output PDU sets the display-update flag and,
        when updates are allowed, asks the VNC side for the whole
        framebuffer; nothing else changes. */
    twostate predicate Reacted(r: Reaction, ok: bool)
      reads this, vnc
    {
      var requested := r.SuppressOutput? && r.allow == ALLOW_DISPLAY_UPDATES && old(vnc.sendsLeft) > 0;
      && ok == Survives(r, r.Input? && inputAccepts(r.events), old(vnc.sendsLeft) > 0)
      && inputs == old(inputs) + (if r.Input? then [r.events] else [])
      && allowDisplayUpdates == (if r.SuppressOutput? then r.allow else old(allowDisplayUpdates))
      && vnc.requests == old(vnc.requests)
           + (if requested then [UpdateRequest(0, 0, 0, vnc.framebufferWidth, vnc.framebufferHeight)] else [])
      && vnc.sendsLeft == (if requested then old(vnc.sendsLeft) - 1 else old(vnc.sendsLeft))
    }

    /** Receives one PDU from the client and reacts to it: a data PDU goes
        to its subtype's handler, any other PDU that arrives is ignored, and
        a failed receive or a refused header fails. */
    method Process() returns (ok: bool)
      requires Valid() && (link.inbound != [] ==> Complete(link.inbound[0]))
      modifies link`inbound, packet`current, packet`end, packet.data
      modifies this`allowDisplayUpdates, this`inputs, vnc`requests, vnc`sendsLeft
      ensures Valid() && link.inbound == Rest(old(link.inbound))
      ensures Reacted(React(old(link.inbound), SESSION_PACKET_SIZE), ok)
    {
      ghost var q := link.inbound;
      var h;
      ok, h := Recv(packet);
      if !ok {
        return;
      }
      match h {
        case ControlOnly(_) =>
        case WithData(_, _, _, _, _, _, _, _) =>
          ghost var body := q[0].body;
          assert packet.data[packet.current..packet.end] == body[SHARE_DATA_HEADER_SIZE..];
          ok := ProcessData(h);
      }
    }

    /** Hands a data PDU, whose data header has been read, to the handler of
        its subtype; a shutdown request fails and an unknown subtype is
        ignored. */
    method ProcessData(h: ShareHeader) returns (ok: bool)
      requires Valid() && h.WithData? && packet.current <= packet.end
      requires h.pduType2 == PDUTYPE2_SUPPRESS_OUTPUT ==> SuppressOutputPresent(packet)
      modifies packet`current, this`allowDisplayUpdates, this`inputs, vnc`requests, vnc`sendsLeft
      ensures Valid()
      ensures Reacted(DataReaction(h.pduType2, old(packet.data[packet.current..packet.end])), ok)
    {
      if h.pduType2 == PDUTYPE2_INPUT {
        ok := ProcessInput();
      } else if h.pduType2 == PDUTYPE2_SUPPRESS_OUTPUT {
        ok := ProcessSuppressOutput();
      } else if h.pduType2 == PDUTYPE2_SHUTDOWN_REQUEST {
        ok := false;
      } else {
        ok := true;
      }
    }

    /** The input events from the cursor to the end go to the translator,
        whose verdict is the result. */
    method ProcessInput() returns (ok: bool)
      requires packet.Valid() && packet.current <= packet.end
      modifies this`inputs
      ensures ok == inputAccepts(packet.data[packet.current..packet.end])
      ensures inputs == old(inputs) + [packet.data[packet.current..packet.end]]
    {
      var events := packet.data[packet.current..packet.end];
      inputs := inputs + [events];
      ok := inputAccepts(events);
    }

    /** The engine reads the flag of a Suppress Output PDU and, when it
        allows updates, four 16-bit values right behind it. */
    ghost predicate SuppressOutputPresent(p: Packet)
      reads p, p.data
    {
      p.Valid() && p.Remains(1) && (p.data[p.current] == ALLOW_DISPLAY_UPDATES ==> p.Remains(9))
    }

    /** Takes the client's display-update flag; when it allows updates,
        reads the desktop rectangle and asks the VNC side for a full,
        non-incremental update of the framebuffer, failing if that request
        fails. */
    method ProcessSuppressOutput() returns (ok: bool)
      requires packet.Valid() && SuppressOutputPresent(packet)
      modifies packet`current, this`allowDisplayUpdates, vnc`requests, vnc`sendsLeft
      ensures packet.Valid()
      ensures allowDisplayUpdates == packet.data[old(packet.current)]
      ensures ok == (allowDisplayUpdates != ALLOW_DISPLAY_UPDATES || old(vnc.sendsLeft) > 0)
      ensures var requested := allowDisplayUpdates == ALLOW_DISPLAY_UPDATES && ok;
        && vnc.requests == old(vnc.requests)
             + (if requested then [UpdateRequest(0, 0, 0, vnc.framebufferWidth, vnc.framebufferHeight)] else [])
        && vnc.sendsLeft == (if requested then old(vnc.sendsLeft) - 1 else old(vnc.sendsLeft))
    {
      allowDisplayUpdates := packet.ReadU8();
      ok := true;
      if allowDisplayUpdates == ALLOW_DISPLAY_UPDATES {
        var left := packet.ReadU16();
        var top := packet.ReadU16();
        var right := packet.ReadU16();
        var bottom := packet.ReadU16();
        ok := vnc.SendUpdateRequest(0, 0, 0, vnc.framebufferWidth, vnc.framebufferHeight);
      }
    }

    /* ---------- Framing ---------- */

    /** Prepares `p` for a share PDU: the lower layers' room, then `offset`
        bytes of room for the share header, which the RDP origin marks. */
    method InitPacket(p: Packet, offset: nat)
      requires p.Valid() && link.mcsRoom + offset <= p.data.Length
      modifies p`payload, p`rdp, p`current
      ensures p.Valid() && p.payload == link.mcsRoom && p.rdp == link.mcsRoom
      ensures p.current == link.mcsRoom + offset
    {
      link.InitMcs(p);
      p.rdp := p.current;
      p.Seek(offset);
    }

    /** Writes the share header of a PDU of type `pduType` over the room
        reserved at the RDP origin and sends the PDU on the I/O channel.
        The header's length fields count the whole PDU, so the bytes sent
        are the share PDU of the body that was written behind the room. */
    method Send(p: Packet, pduType: u4, pduType2: u8) returns (ok: bool)
      requires p.Valid() && p.payload == p.rdp && p.rdp + OutboundHeaderSize(pduType) <= p.end
      modifies p`current, p.data, link`sendsLeft, link`sent
      ensures p.Valid()
      ensures p.data[p.rdp..p.end]
           == SharePdu(pduType, pduType2, link.userChannelId, old(p.data[p.rdp + OutboundHeaderSize(pduType)..p.end]))
      ensures ok == (old(link.sendsLeft) > 0)
      ensures link.sendsLeft == if ok then old(link.sendsLeft) - 1 else old(link.sendsLeft)
      ensures link.sent == old(link.sent) + if ok then [McsData(MCS_IO_CHANNEL_ID,
                SharePdu(pduType, pduType2, link.userChannelId, old(p.data[p.rdp + OutboundHeaderSize(pduType)..p.end])))] else []
    {
      var header := Encode(OutboundHeader(pduType, pduType2, p.end - p.rdp, link.userChannelId));
      WriteHeader(p, header);
      ok := link.SendMcs(p, MCS_IO_CHANNEL_ID);
    }

    /** Writes `header` at the RDP origin, over the room reserved for it;
        the bytes behind it up to the end stay as they were. */
    method WriteHeader(p: Packet, header: seq<u8>)
      requires p.Valid() && p.rdp + |header| <= p.end
      modifies p`current, p.data
      ensures p.Valid()
      ensures p.data[p.rdp..p.end] == header + old(p.data[p.rdp + |header|..p.end])
    {
      ghost var before := p.data[..];
      p.current := p.rdp;
      p.Write(header);
      SpliceHead(before, p.rdp, p.end, header);
    }

    /** Receives a share PDU and reads its header: the control header
        first, then, for a data PDU, the data-header fields.  A receive
        that fails, fewer than 6 bytes, or a version other than
        (TS_PROTOCOL_VERSION, 0) is a failure; the header otherwise is the
        one its bytes encode, and the cursor is right after it. */
    method Recv(p: Packet) returns (ok: bool, h: ShareHeader)
      requires p.Valid() && (link.inbound != [] ==> HeaderArrives(link.inbound[0]))
      modifies link`inbound, p`current, p`end, p.data
      ensures p.Valid()
      ensures link.inbound == Rest(old(link.inbound))
      ensures ok == (Delivers(old(link.inbound), p.data.Length) && Decode(old(link.inbound)[0].body).Some?)
      ensures ok ==> var body := old(link.inbound)[0].body;
        && h == Decode(body).value && p.current == HeaderSize(h)
        && p.end == |body| && p.data[..p.end] == body
    {
      var flags, channel;
      ok, flags, channel := link.Receive(p);
      h := ControlOnly(ShareControlHeader(0, 0, 0, 0, 0));
      if !ok {
        return;
      }
      if !p.Remains(SHARE_CONTROL_HEADER_SIZE) {
        ok := false;
        return;
      }
      var c := ReadControlHeader(p);
      if !VersionOk(c) {
        ok := false;
        return;
      }
      if c.pduType == PDUTYPE_DATAPDU {
        h := ReadDataHeader(p, c);
      } else {
        h := ControlOnly(c);
      }
    }

    /* ---------- Connection finalization: receive steps ---------- */

    /** The client's info packet must come through the security layer
        with the info flag, on the I/O channel. */
    method RecvClientInfo(p: Packet) returns (ok: bool)
      requires Ready(p)
      modifies link`inbound, p`current, p`end, p.data
      ensures Ready(p) && link.inbound == Rest(old(link.inbound))
      ensures ok == (Delivers(old(link.inbound), p.data.Length) && Accepts(Step.RecvClientInfo, old(link.inbound)[0]))
    {
      var flags, channel;
      ok, flags, channel := link.Receive(p);
      ok := ok && flags == SEC_INFO_PKT && channel == MCS_IO_CHANNEL_ID;
    }

    method RecvConfirmActive(p: Packet) returns (ok: bool)
      requires Ready(p) && ReadsNext(Step.RecvConfirmActive, link.inbound)
      modifies link`inbound, p`current, p`end, p.data
      ensures Ready(p) && link.inbound == Rest(old(link.inbound))
      ensures ok == (Delivers(old(link.inbound), p.data.Length) && Accepts(Step.RecvConfirmActive, old(link.inbound)[0]))
    {
      var h;
      ok, h := Recv(p);
      ok := ok && h.ctrl.pduType == PDUTYPE_CONFIRMACTIVEPDU;
    }

    method RecvSynchronize(p: Packet) returns (ok: bool)
      requires Ready(p) && ReadsNext(Step.RecvSynchronize, link.inbound)
      modifies link`inbound, p`current, p`end, p.data
      ensures Ready(p) && link.inbound == Rest(old(link.inbound))
      ensures ok == (Delivers(old(link.inbound), p.data.Length) && Accepts(Step.RecvSynchronize, old(link.inbound)[0]))
    {
      var h;
      ok, h := Recv(p);
      ok := ok && h.ctrl.pduType == PDUTYPE_DATAPDU && h.pduType2 == PDUTYPE2_SYNCHRONIZE;
    }

    method RecvControlCooperate(p: Packet) returns (ok: bool)
      requires Ready(p) && ReadsNext(Step.RecvControlCooperate, link.inbound)
      modifies link`inbound, p`current, p`end, p.data
      ensures Ready(p) && link.inbound == Rest(old(link.inbound))
      ensures ok == (Delivers(old(link.inbound), p.data.Length) && Accepts(Step.RecvControlCooperate, old(link.inbound)[0]))
    {
      var h;
      ok, h := Recv(p);
      if !ok || h.ctrl.pduType != PDUTYPE_DATAPDU || h.pduType2 != PDUTYPE2_CONTROL {
        return false;
      }
      var action := ReadControlAction(p);
      ok := action == CTRLACTION_COOPERATE;
    }

    method RecvControlRequest(p: Packet) returns (ok: bool)
      requires Ready(p) && ReadsNext(Step.RecvControlRequest, link.inbound)
      modifies link`inbound, p`current, p`end, p.data
      ensures Ready(p) && link.inbound == Rest(old(link.inbound))
      ensures ok == (Delivers(old(link.inbound), p.data.Length) && Accepts(Step.RecvControlRequest, old(link.inbound)[0]))
    {
      var h;
      ok, h := Recv(p);
      if !ok || h.ctrl.pduType != PDUTYPE_DATAPDU || h.pduType2 != PDUTYPE2_CONTROL {
        return false;
      }
      var action := ReadControlAction(p);
      ok := action == CTRLACTION_REQUEST_CONTROL;
    }

    method RecvFontList(p: Packet) returns (ok: bool)
      requires Ready(p) && ReadsNext(Step.RecvFontList, link.inbound)
      modifies link`inbound, p`current, p`end, p.data
      ensures Ready(p) && link.inbound == Rest(old(link.inbound))
      ensures ok == (Delivers(old(link.inbound), p.data.Length) && Accepts(Step.RecvFontList, old(link.inbound)[0]))
    {
      var h;
      ok, h := Recv(p);
      ok := ok && h.ctrl.pduType == PDUTYPE_DATAPDU && h.pduType2 == PDUTYPE2_FONTLIST;
    }

    /** Reads the action of a Control PDU, right after its data header. */
    method ReadControlAction(p: Packet) returns (action: u16)
      requires p.Valid() && p.current == SHARE_DATA_HEADER_SIZE && ControlActionPresent(p.data[..p.end])
      requires p.end >= SHARE_DATA_HEADER_SIZE && p.data[14] == PDUTYPE2_CONTROL && AnnouncesData(p.data[..p.end])
      modifies p`current
      ensures p.Valid() && action == U16At(p.data[..p.end], SHARE_DATA_HEADER_SIZE)
    {
      assert p.data[..p.end][14] == p.data[14];
      action := p.ReadU16();
    }

    /* ---------- Connection finalization: send steps ---------- */

    /** The common shape of the share PDUs the engine sends: header room,
        the body's fields in order, then the header and the send. */
    method SendShare(p: Packet, pduType: u4, pduType2: u8, body: seq<u8>) returns (ok: bool)
      requires p.Valid() && link.mcsRoom + OutboundHeaderSize(pduType) + |body| <= p.data.Length
      modifies p, p.data, link`sendsLeft, link`sent
      ensures p.Valid() && Sent(ok, old(link.sendsLeft), old(link.sent),
                McsData(MCS_IO_CHANNEL_ID, SharePdu(pduType, pduType2, link.userChannelId, body)))
    {
      InitPacket(p, OutboundHeaderSize(pduType));
      ghost var room := p.data[p.rdp..p.current];
      p.Write(body);
      p.MarkEnd();
      WindowTail(p.data[..], p.rdp, p.end, room, body);
      ok := Send(p, pduType, pduType2);
    }

    method SendSynchronize(p: Packet) returns (ok: bool)
      requires Ready(p)
      modifies p, p.data, link`sendsLeft, link`sent
      ensures Ready(p) && Sent(ok, old(link.sendsLeft), old(link.sent),
                Emits(Step.SendSynchronize, Cfg(p.data.Length)))
    {
      ok := SendShare(p, PDUTYPE_DATAPDU, PDUTYPE2_SYNCHRONIZE, EncodeSynchronize(ServerSynchronize()));
    }

    method SendControlCooperate(p: Packet) returns (ok: bool)
      requires Ready(p)
      modifies p, p.data, link`sendsLeft, link`sent
      ensures Ready(p) && Sent(ok, old(link.sendsLeft), old(link.sent),
                Emits(Step.SendControlCooperate, Cfg(p.data.Length)))
    {
      ok := SendShare(p, PDUTYPE_DATAPDU, PDUTYPE2_CONTROL, EncodeControlPdu(ServerCooperate()));
    }

    method SendControlGrant(p: Packet) returns (ok: bool)
      requires Ready(p)
      modifies p, p.data, link`sendsLeft, link`sent
      ensures Ready(p) && Sent(ok, old(link.sendsLeft), old(link.sent),
                Emits(Step.SendControlGrant, Cfg(p.data.Length)))
    {
      ok := SendShare(p, PDUTYPE_DATAPDU, PDUTYPE2_CONTROL, EncodeControlPdu(ServerGrantControl(link.userChannelId)));
    }

    method SendFontMap(p: Packet) returns (ok: bool)
      requires Ready(p)
      modifies p, p.data, link`sendsLeft, link`sent
      ensures Ready(p) && Sent(ok, old(link.sendsLeft), old(link.sent),
                Emits(Step.SendFontMap, Cfg(p.data.Length)))
    {
      ok := SendShare(p, PDUTYPE_DATAPDU, PDUTYPE2_FONTMAP, EncodeFontMap(ServerFontMap()));
    }

    /** The licensing PDU goes through the security layer, flagged as a
        licensing packet, on the I/O channel. */
    method SendLicenseError(p: Packet) returns (ok: bool)
      requires Ready(p)
      modifies p, p.data, link`sendsLeft, link`sent
      ensures Ready(p) && Sent(ok, old(link.sendsLeft), old(link.sent),
                Emits(Step.SendLicenseError, Cfg(p.data.Length)))
    {
      ok := SendSecurityPdu(p, SEC_LICENSE_PKT, LicenseErrorBody());
    }

    /** Writes `body` as the security layer's payload and sends it with
        `flags` on the I/O channel. */
    method SendSecurityPdu(p: Packet, flags: u16, body: seq<u8>) returns (ok: bool)
      requires Ready(p) && link.secRoom + |body| <= p.data.Length
      modifies p, p.data, link`sendsLeft, link`sent
      ensures Ready(p) && Sent(ok, old(link.sendsLeft), old(link.sent), SecData(flags, MCS_IO_CHANNEL_ID, body))
    {
      link.InitSec(p);
      p.Write(body);
      p.MarkEnd();
      ok := link.SendSec(p, flags, MCS_IO_CHANNEL_ID);
    }

    /** The Demand Active PDU: lengthCombinedCapabilities is written as 0,
        then patched, once the capability sets are written, with the
        distance from numberCapabilities to the cursor. */
    method SendDemandActive(p: Packet) returns (ok: bool)
      requires Ready(p)
      modifies p, p.data, link`sendsLeft, link`sent
      ensures Ready(p) && Sent(ok, old(link.sendsLeft), old(link.sent),
                Emits(Step.SendDemandActive, Cfg(p.data.Length)))
    {
      var body := WriteDemandActive(p);
      ok := Send(p, PDUTYPE_DEMANDACTIVEPDU, 0);
    }

    /** Writes the Demand Active body behind the share control header's
        room. */
    method WriteDemandActive(p: Packet) returns (ghost body: seq<u8>)
      requires p.Valid() && Fits(p.data.Length)
      modifies p`payload, p`rdp, p`current, p`end, p.data
      ensures p.Valid() && p.payload == p.rdp && p.rdp + SHARE_CONTROL_HEADER_SIZE <= p.end
      ensures body == DemandActiveBody(link.userChannelId, numberCapabilities, capabilitySets)
      ensures p.data[p.rdp + SHARE_CONTROL_HEADER_SIZE..p.end] == body
    {
      body := DemandActiveBody(link.userChannelId, numberCapabilities, capabilitySets);
      InitPacket(p, SHARE_CONTROL_HEADER_SIZE);
      WriteBackpatched(p, LE32(0x1000 + link.userChannelId) + LE16(|SOURCE_DESCRIPTOR|), SOURCE_DESCRIPTOR,
                       LE16(numberCapabilities) + LE16(0) + capabilitySets, LE32(0));
      p.MarkEnd();
      DemandActiveLayout(link.userChannelId, numberCapabilities, capabilitySets);
    }

    /** The Demand Active layout around its backpatched length: `head`,
        a 16-bit length written as 0, `source`, then `counted`, whose size
        is patched into the length once it is written, and `tail`. */
    method WriteBackpatched(p: Packet, head: seq<u8>, source: seq<u8>, counted: seq<u8>, tail: seq<u8>)
      requires p.Valid() && p.current + |head| + 2 + |source| + |counted| + |tail| <= p.data.Length
      modifies p`current, p.data
      ensures p.Valid() && p.current == old(p.current) + |head| + 2 + |source| + |counted| + |tail|
      ensures p.data[old(p.current)..p.current] == head + LE16(|counted| % 0x1_0000) + source + counted + tail
    {
      ghost var s0, at := p.data[..], p.current;
      var lengthAt, countAt := WriteUnpatched(p, head, source, counted);
      ghost var s3, tailAt := p.data[..], p.current;
      var combined := (p.current - countAt) % 0x1_0000;
      p.Patch16(lengthAt, combined);
      ghost var s4 := p.data[..];
      p.Write(tail);
      ghost var s1 := Splice(s0, at, head);
      WrittenPatched(s0, s1, Splice(s1, lengthAt, LE16(0) + source), s3, s4, p.data[..],
                     at, lengthAt, countAt, tailAt, head, LE16(0), source, counted, LE16(combined), tail);
    }

    /** The writes before the patch: `head`, the zero length and `source`,
        then `counted`; `lengthAt` is where the zero length went and
        `countAt` where `counted` begins. */
    method WriteUnpatched(p: Packet, head: seq<u8>, source: seq<u8>, counted: seq<u8>) returns (lengthAt: nat, countAt: nat)
      requires p.Valid() && p.current + |head| + 2 + |source| + |counted| <= p.data.Length
      modifies p`current, p.data
      ensures p.Valid() && lengthAt == old(p.current) + |head| && countAt == lengthAt + 2 + |source|
      ensures p.current == countAt + |counted|
      ensures p.data[..] == Splice(Splice(Splice(old(p.data[..]), old(p.current), head),
                                          lengthAt, LE16(0) + source), countAt, counted)
    {
      p.Write(head);
      lengthAt := p.current;
      p.Write(LE16(0) + source);
      countAt := p.current;
      p.Write(counted);
    }

    /** Reads the share control header at the front of the received bytes. */
    method ReadControlHeader(p: Packet) returns (c: ShareControlHeader)
      requires p.Valid() && p.current == 0 && p.Remains(SHARE_CONTROL_HEADER_SIZE)
      modifies p`current
      ensures p.Valid() && p.current == SHARE_CONTROL_HEADER_SIZE
      ensures c == DecodeControl(p.data[..p.end])
    {
      ghost var s := p.data[..p.end];
      var totalLength := p.ReadU16();
      var word := p.ReadU16();
      var pduSource := p.ReadU16();
      assert s[..SHARE_CONTROL_HEADER_SIZE] == p.data[..SHARE_CONTROL_HEADER_SIZE];
      c := ShareControlHeader(totalLength, word % 0x10, (word / 0x10) % 0x10, word / 0x100, pduSource);
    }

    /** Reads the fields a data header adds after the control header `c`. */
    method ReadDataHeader(p: Packet, c: ShareControlHeader) returns (h: ShareHeader)
      requires p.Valid() && p.current == SHARE_CONTROL_HEADER_SIZE && SHARE_DATA_HEADER_SIZE <= p.end
      modifies p`current
      ensures p.Valid() && p.current == SHARE_DATA_HEADER_SIZE
      ensures var s := p.data[..p.end];
        h == WithData(c, U32At(s, 6), s[10], s[11], U16At(s, 12), s[14], s[15], U16At(s, 16))
    {
      ghost var s := p.data[..p.end];
      var shareId := p.ReadU32();
      var pad1 := p.ReadU8();
      var streamId := p.ReadU8();
      var uncompressedLength := p.ReadU16();
      var pduType2 := p.ReadU8();
      var compressedType := p.ReadU8();
      var compressedLength := p.ReadU16();
      assert s[..SHARE_DATA_HEADER_SIZE] == p.data[..SHARE_DATA_HEADER_SIZE];
      h := WithData(c, shareId, pad1, streamId, uncompressedLength, pduType2, compressedType, compressedLength);
    }
  }
}
