# RDP connection finalization and PDU engine of vnc2rdp

vnc2rdp is a proxy that lets an RDP client view and drive a VNC server.
This project models its RDP layer, `rdp.c`, in Dafny. It covers three parts.

- **The framing of share PDUs.** Each PDU gets a Share Control Header, plus
  a Share Data Header when it is a data PDU (MS-RDPBCGR section 2.2.8.1.1.1).
  The header is written over room reserved in front of the body once the body
  is complete. Its length fields count the whole PDU.
- **Connection finalization.** The server:
  - receives the client's info packet
  - answers with a "valid client" license error
  - sends Demand Active, with its combined-capabilities length patched in
    after the capability sets are written
  - receives Confirm Active, Synchronize, Control (cooperate), Control
    (request control) and Font List
  - sends Synchronize, Control (cooperate), Control (granted) and Font Map

  The first step that fails ends the sequence.
- **Steady state.**
  - The server sends Bitmap Updates and ScrBlt drawing orders.
  - For each PDU the client sends:
    - input events go to the input translator
    - a Suppress Output PDU sets the display-update flag; when it allows
      updates, the server asks the VNC side for the whole framebuffer
    - a shutdown request ends the session
    - anything else is ignored

## How the model is organised

- `Bytes` holds byte-sized integers, little-endian encodings and the
  `Splice` view of writing into a buffer.
- `Packets.Packet` is the packet buffer: an array with `payload`, `rdp`,
  `current` and `end` cursors.
- `Transport.Link` is the layers beneath the RDP layer:
  - a script of inbound PDUs
  - a socket that accepts a limited number of further writes
  - a log of every PDU sent
- `Backend.Vnc` is the VNC connection as the engine sees it. It has the
  framebuffer size and a log of the update requests it accepted.
- `ShareHeaders` holds the share headers, their encoder and decoder, and
  `SharePdu`: the bytes a share PDU with a given body goes out as.
- `Pdus` holds the bodies the engine writes. Every body except the license
  error has a reader, and a round-trip lemma proves the reader gets back the
  values that were written. The license error is a constant, and its
  contract states each of its fields at its offset.
- `Handshake` is a reference definition of connection finalization, written
  as pure functions:
  - the twelve steps, in order
  - what each receive step accepts and what each send step emits
  - `Run`, which executes steps until the first failure
- `Dispatch` is a reference definition of how the engine reacts to one
  inbound PDU (`React`), and of whether the session survives it (`Survives`).
- `Rdp.RdpSession` is the engine itself. It is a class whose methods write
  into and read from the packet, send and receive through the link, and
  update the session's fields. Each method is proved against the functions
  above:
  - `BuildConn` ends where `Run` of the twelve steps ends
  - `Process` changes the session as `React` prescribes

## Model

| member | source | states |
|---|---|---|
| Rdp.RdpSession.constructor | rdp.c:347-381 | The session gets a fresh 65535-byte packet, and display updates start out allowed. |
| Rdp.RdpSession.InitPacket | rdp.c:398-404 | The lower layers reserve their header room, the RDP origin is marked where that room ends, and the cursor is moved `offset` bytes past it to make room for the share header. |
| Rdp.RdpSession.Send | rdp.c:434-459 | The bytes sent on the I/O channel are exactly the share PDU of the body written behind the header room. The header is patched with its lengths, version, source, share id, stream and compression fields. The send happens exactly when the socket accepts one more write, and it is logged. |
| Rdp.RdpSession.WriteHeader | rdp.c:450-455 | The header goes over the reserved room at the RDP origin. The body behind it, up to the end, is left as it was. |
| ShareHeaders.SharePduReadsBack | rdp.c:437-448 | A decoder reads back what the engine sends: total length equal to the PDU's size, version (1, 0), source = the I/O channel, and the PDU type. For a data PDU it also reads share id 0x1000 + user channel, low stream priority, uncompressed length = size − 14, no compression, the subtype, and the body after the header. |
| ShareHeaders.Decode | rdp.c:415-426 | A header is refused exactly when there are fewer than 6 bytes or the version is not (TS_PROTOCOL_VERSION, 0). An accepted header is well formed and no longer than the PDU. |
| ShareHeaders.EncodeDecode | rdp.c:418-426 | Re-encoding an accepted header reproduces the bytes it was read from. |
| ShareHeaders.DecodeEncode | rdp.c:418-426 | Any well-formed header, followed by any bytes, reads back as itself. |
| Rdp.RdpSession.Recv | rdp.c:406-432 | It succeeds exactly when the lower layer delivers a PDU that fits the packet and whose header the decoder accepts. It consumes one inbound entry. On success, the header is the decoded one, the PDU is in the packet, and the cursor sits right after the header. |
| Rdp.RdpSession.ReadControlHeader | rdp.c:418 | The three 16-bit fields at the front are read as the control header the decoder sees. |
| Rdp.RdpSession.ReadDataHeader | rdp.c:423-426 | The data header's fields after the control header are read at their offsets. |
| Rdp.RdpSession.RecvClientInfo | rdp.c:30-46 | It succeeds exactly when a security-layer PDU arrives that fits, carries the info-packet flag and comes on the I/O channel. |
| Pdus.LicenseErrorBody | rdp.c:48-70 | The 16-byte license message: ERROR_ALERT, version 3.0, wMsgSize equal to its own size, STATUS_VALID_CLIENT, ST_NO_TRANSITION, and an empty error blob. |
| Rdp.RdpSession.SendSecurityPdu | rdp.c:51-69 | The body written after the security layer's room goes out as one security PDU with the given flags on the I/O channel, exactly when the socket accepts a write. |
| Rdp.RdpSession.SendLicenseError | rdp.c:48-70 | What goes out is the license error as a licensing security PDU, exactly the step the handshake's reference emits. |
| Pdus.DemandActiveRoundTrip | rdp.c:72-104 | The patched lengths are correct. A reader that follows them recovers the share id, "RDP\0", the capability count, exactly the capability sets, and session id 0. |
| Rdp.DemandActiveLayout | rdp.c:83-100 | The Demand Active body is the chunks in the order they are written. The patched length is the size, modulo 2^16, of what lies between numberCapabilities and the end of the capability sets. |
| Rdp.WrittenPatched | rdp.c:86-100 | Writing the chunks, going back to patch the length, then writing the tail leaves the chunks with the patched value in place of the placeholder. |
| Rdp.RdpSession.WriteUnpatched | rdp.c:83-97 | The fields before the patch are written in order. The method returns where the length placeholder and the counted part begin. |
| Rdp.RdpSession.WriteBackpatched | rdp.c:86-100 | The window written is the head, the length of the counted part, the source descriptor, the counted part and the tail. |
| Rdp.RdpSession.WriteDemandActive | rdp.c:79-102 | Behind the share control header's room, the packet holds exactly the Demand Active body for this user channel and capability catalog. |
| Rdp.RdpSession.SendDemandActive | rdp.c:72-104 | What goes out is the Demand Active share PDU that the handshake's reference emits. |
| Rdp.RdpSession.RecvConfirmActive | rdp.c:106-122 | It succeeds exactly when a PDU that fits arrives and its header is accepted with type CONFIRMACTIVEPDU. |
| Rdp.RdpSession.RecvSynchronize | rdp.c:124-141 | It succeeds exactly when an accepted data PDU of subtype SYNCHRONIZE arrives. |
| Rdp.RdpSession.RecvControlCooperate | rdp.c:143-166 | It succeeds exactly when an accepted Control data PDU arrives whose action is COOPERATE. |
| Rdp.RdpSession.RecvControlRequest | rdp.c:168-191 | It succeeds exactly when an accepted Control data PDU arrives whose action is REQUEST_CONTROL. |
| Rdp.RdpSession.RecvFontList | rdp.c:193-210 | It succeeds exactly when an accepted data PDU of subtype FONTLIST arrives. |
| Rdp.RdpSession.ReadControlAction | rdp.c:156-157 | The action is the 16-bit field right after the data header. |
| Handshake.AcceptsChecks | rdp.c:106-210 | Each receive step accepts exactly the PDU type, subtype and control action that it checks. |
| Handshake.ReceiveChecksExclusive | rdp.c:106-210 | No PDU satisfies two different share-PDU receive steps, so every step of the sequence needs its own message. |
| Rdp.RdpSession.SendShare | rdp.c:212-290 | The body written behind the share header's room goes out as the share PDU of that body, exactly when the socket accepts a write. |
| Rdp.RdpSession.SendSynchronize | rdp.c:212-228 | What goes out is the server's Synchronize PDU (SYNC, target = the I/O channel), as the handshake's reference emits it. |
| Pdus.SynchronizeRoundTrip | rdp.c:221-224 | A Synchronize body reads back as the message type and target user that were written. |
| Rdp.RdpSession.SendControlCooperate | rdp.c:230-248 | What goes out is the Control PDU (COOPERATE, grant 0, control 0), as the handshake's reference emits it. |
| Rdp.RdpSession.SendControlGrant | rdp.c:250-268 | What goes out is the Control PDU (GRANTED_CONTROL, grant = the user channel, control = 0x03EA), as the handshake's reference emits it. |
| Pdus.ControlRoundTrip | rdp.c:239-264 | A Control body reads back as the action, grant id and control id that were written. |
| Rdp.RdpSession.SendFontMap | rdp.c:270-290 | What goes out is the Font Map PDU (no entries, FIRST and LAST, entry size 4), as the handshake's reference emits it. |
| Pdus.FontMapRoundTrip | rdp.c:279-286 | A Font Map body reads back as the four fields that were written. |
| Rdp.RdpSession.BuildConn | rdp.c:292-345 | Connection finalization on a fresh 8192-byte packet ends exactly where the reference run of the twelve steps ends: whether it succeeds, which inbound PDUs it consumes, how many writes it uses, and what it puts on the wire. |
| Rdp.RdpSession.Attempt | rdp.c:302-337 | A step runs only if every step before it succeeded. Afterwards, the steps that ran are a prefix of the sequence, and either all of them ran or the last one failed. |
| Rdp.RdpSession.Stop | rdp.c:337-344 | Once a step has failed, or all twelve have run, the whole run ends where the steps so far left it. |
| Rdp.RdpSession.PerformStep | rdp.c:302-336 | Performing step k takes the link from the reference state after k steps to the reference state after k + 1. |
| Rdp.RdpSession.PerformReceive | rdp.c:302-325 | Each receive step's method does what the reference says that step does to the link. |
| Rdp.RdpSession.PerformSend | rdp.c:305-336 | Each send step's method does what the reference says that step does to the link. |
| Handshake.OrderSteps | rdp.c:302-336 | The steps run in the order the source calls them. |
| Handshake.HandshakeSucceedsIff | rdp.c:292-345 | The handshake succeeds exactly when the next six inbound PDUs are, in order, the six the receive steps accept and the socket accepts six writes. It then consumes those six PDUs and sends the license error, Demand Active, Synchronize, Control (cooperate), Control (granted) and Font Map, in that order. |
| Handshake.RunStopsAtFirstFailure | rdp.c:302-344 | When step k is the first to fail, the run ends with that step's failure and nothing after it runs. |
| Handshake.RunSentPrefix | rdp.c:302-344 | What a run puts on the wire is always a prefix of the full transcript; it is the whole transcript when the run succeeds. |
| Handshake.RunStopped | rdp.c:337-344 | Steps after a failure change nothing. |
| Handshake.RunExtend | rdp.c:302-336 | After k successful steps, one more step continues the run from where they ended. |
| Handshake.RunAppend | rdp.c:302-344 | Running two sequences in a row is running the second from where the first ended, unless the first failed. |
| Handshake.RunReceives | rdp.c:302-325 | A run of receive steps succeeds exactly when each step accepts the next inbound PDU. It then consumes one PDU per step and sends nothing. |
| Handshake.RunSends | rdp.c:305-336 | A run of send steps succeeds exactly when the socket accepts that many writes. It then emits each step's PDU in order and consumes nothing. |
| Handshake.RunPhase | rdp.c:302-336 | A block of receives followed by a block of sends succeeds exactly when both blocks succeed, and the rest of the run starts from their combined effect. |
| Handshake.RunAlternating | rdp.c:302-336 | Two receive blocks interleaved with two send blocks succeed exactly when the receives accept the inbound PDUs in order and the socket takes every send. |
| Handshake.ClientFinalEntry | rdp.c:302-325 | Once the steps before a client finalization step have succeeded, the entries consumed are the client info packet and one per client step before it, so the next entry is the one the client sent for this step. |
| Handshake.NextReads | rdp.c:143-191 | When every entry the client sends carries what its step reads unchecked, the entry step k takes does too: the data header, and for the two control steps the action. |
| Handshake.AdmitsAllIndexed | rdp.c:311-325 | A block of receives admits the inbound script exactly when each step admits the PDU at its own position. |
| Rdp.RdpSession.SendBitmapUpdate | rdp.c:461-510 | What goes out is the update data PDU carrying a one-rectangle Bitmap Update: the destination edges, size, depth, flags 0, bitmapLength, and the first bitmapLength bytes of the data. It goes out exactly when the socket accepts a write. |
| Pdus.BitmapUpdateBody | rdp.c:476-498 | The body is 22 fixed bytes followed by exactly bitmapLength bytes of data. |
| Pdus.BitmapUpdateRoundTrip | rdp.c:476-498 | A reader gets back every field that was written, and exactly the bitmapLength bytes of data. |
| Rdp.RdpSession.SendScrBltOrder | rdp.c:512-566 | What goes out is the update data PDU carrying one ScrBlt order for the given rectangle and source point. It goes out exactly when the socket accepts a write. |
| Pdus.ScrBltOrderBody | rdp.c:525-554 | The orders update with one ScrBlt order is 24 bytes. |
| Pdus.ScrBltOrderRoundTrip | rdp.c:525-554 | A reader gets back the rectangle and source point of the order. It also checks the standard/type-change flags, all seven fields present, and SRCCOPY. |
| Rdp.RdpSession.Process | rdp.c:627-649 | One receive, after which the session is as `React` prescribes: a failed receive or refused header fails; a data PDU goes to its subtype's handler; any other PDU type is ignored. Exactly one inbound entry is consumed. |
| Rdp.RdpSession.ProcessData | rdp.c:597-625 | Input goes to the translator, whose verdict is the result. Suppress Output is handled. A shutdown request fails. An unknown subtype changes nothing and succeeds. |
| Rdp.RdpSession.ProcessInput | rdp.c:601-605 | The events from the cursor to the end are handed on, and the translator's verdict is the result. |
| Rdp.RdpSession.ProcessSuppressOutput | rdp.c:568-595 | The flag becomes the session's display-update flag. When the flag allows updates, one non-incremental request for the whole framebuffer goes to the VNC side, whatever rectangle the client gave, and the handler fails exactly when that request fails. Otherwise nothing is requested and it succeeds. |
| Dispatch.React | rdp.c:627-649 | It rejects exactly when nothing usable was delivered or the header was refused. A PDU that is not a data PDU is ignored. A data PDU gets the reaction its subtype calls for. |
| Dispatch.DataReaction | rdp.c:600-619 | The handler chosen is that of the subtype: INPUT, SUPPRESS_OUTPUT or SHUTDOWN_REQUEST, each exactly for its own subtype. Any other subtype is ignored. |
| Dispatch.Survives | rdp.c:597-649 | A rejection and a shutdown end the session. An ignored PDU never does. |
| Dispatch.ReactToDataPdu | rdp.c:597-625 | Under any well-formed data header a client may send, whatever its length fields, source, share id and stream, an input PDU reaches the translator with its body whole. A shutdown request is a shutdown. Any other subtype except Suppress Output is ignored. |
| Dispatch.ReactToSuppressOutput | rdp.c:568-595 | Under any well-formed data header, a Suppress Output PDU as a client lays it out carries every byte the engine reads from it. The engine takes the flag it carries, whatever the rectangle. |
| Dispatch.ReadsDataBody | rdp.c:418-432 | A well-formed data header followed by any bytes is read back as that header, with its subtype at offset 14 and the bytes behind it. |

## Left out

- The security, multipoint and X.224 layers and the socket are not part of
  this model. `Transport.Link` stands for them:
  - a script of inbound PDUs
  - a count of the writes the socket still accepts
  - a log of what was sent
- `Transport.Link.Receive` stands for both of the engine's receive paths:
  - the security-layer receive of the client info packet (rdp.c:35), which
    yields flags and a channel
  - the multipoint receive of share PDUs (rdp.c:412), whose channel and
    choice the engine ignores
- Transport.Link.Receive: a PDU whose body is larger than the packet is a
  failed receive, with the entry consumed. What the lower layers really do
  with such a PDU is not part of this model.
- The header room the lower layers reserve is a pair of constants
  (`mcsRoom`, `secRoom`). Their real sizes are not part of this model.
- The headers that define the protocol constants are not part of this model.
  The values used are those of MS-RDPBCGR, MS-RDPELE and MS-RDPEGDI.
- The packet macros are not part of this model. They are modelled as the
  `Packet` methods.
- The source reads and writes without checking for room in many places. A
  caller must provide that room, so it becomes a precondition:
  - the writers assume room for the PDU (`Fits` for the handshake, the room
    preconditions of `SendBitmapUpdate` and `SendScrBltOrder`)
  - the readers assume that a PDU carries the fields they read from it,
    and each method requires this only of the entry it takes.
    - The handshake's share-PDU receive steps need the data header
      (rdp.c:424).
    - The two control steps also need the action (rdp.c:157, 182).
    - `BuildConn` requires this of the client's six entries, in order
      (`Handshake.Readable`).
    - `Process` requires the data header, and the Suppress Output flag and
      rectangle (rdp.c:574-582), of the one entry it takes
      (`Transport.SharePduComplete`).
- The capability catalog (`r2v_cap_get_write_count`, `r2v_cap_write_caps`)
  is not part of this model. The session holds its output as a count and
  opaque bytes.
- The input translator (`r2v_input_process`) is not part of this model. The
  session records the events handed to it, and a function says whether the
  translator accepts them.
- The VNC backend is not part of this model. `Backend.Vnc` records the update
  requests and fails once its allowance of sends is used up.
- Allocation and its failure (`r2v_packet_init`, `malloc`), teardown
  (`r2v_rdp_destory`, `r2v_packet_destory`) and logging are left out. They do
  not affect the bytes exchanged.
- Rdp.RdpSession.constructor: `r2v_rdp_init` also runs connection
  finalization (rdp.c:372). In the model, the caller runs `BuildConn` after
  constructing the session.
- The C structure overlay used for the share headers (rdp.c:418, 424, 452)
  is modelled as explicit little-endian fields at their offsets. So is the
  combined-capabilities length, which rdp.c:98 stores as a host-order
  `uint16_t` through a cast of the packet's address. The model writes it
  little-endian (`Patch16`), which is what the source does on a
  little-endian host.
- Rdp.RdpSession.ProcessSuppressOutput: the model reads the rectangle where
  the source does, right after the flag byte. The pad3Octets that section
  2.2.11.3.1 of MS-RDPBCGR places there are not skipped. The rectangle is
  only logged, so the model reads it and discards it, and `React` does not
  mention it.
- Rdp.RdpSession.WriteDemandActive: the Demand Active fields before the
  patched length are written as three chunks. These are the same bytes, in
  the same order, that the source writes field by field.
- Rdp.RdpSession.SendShare: each body is written as one chunk. These are
  the same bytes the source writes field by field.
- Rdp.RdpSession.BuildConn: the chain of `goto fail` becomes a run of
  `Attempt` calls. Each call skips its step once a step has failed, which is
  the same control flow.
- ShareHeaders.SharePduReadsBack: the exact total and uncompressed lengths
  are proved only for PDUs below 65536 bytes. The source stores them in
  16-bit fields, and the model keeps them modulo 2^16.
- Rdp.RdpSession.Process: `process()` (rdp.c:635-644) returns success for
  every share PDU type other than DATAPDU, not just DEMANDACTIVEPDU. The
  model follows the code and treats all of them as ignored, although an
  unexpected PDU type could be read as a protocol violation.
