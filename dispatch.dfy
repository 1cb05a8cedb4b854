/** What the engine does with one PDU after the connection is up, as a
    reference definition: the share header decides, and among data PDUs
    the subtype decides. */
module Dispatch {
  import opened Bytes
  import opened Wrappers
  import opened Protocol
  import opened ShareHeaders
  import opened Transport

  /** The engine's reaction to one receive:
      - Rejected: nothing usable arrived, or the share header was refused;
      - Ignored: a PDU that is not a data PDU, or a data PDU of a subtype
        the engine does not handle;
      - Input: input events, handed on for translation;
      - SuppressOutput: the client's display-update flag;
      - Shutdown: the client asked to close the connection. */
  datatype Reaction =
    | Rejected
    | Ignored
    | Input(events: seq<u8>)
    | SuppressOutput(allow: u8)
    | Shutdown

  /** The reaction to the next inbound entry, received into a buffer of
      `capacity` bytes. */
  function React(q: seq<Inbound>, capacity: nat): (r: Reaction)
    requires q != [] ==> Complete(q[0])
    ensures r.Rejected? <==> !Delivers(q, capacity) || Decode(q[0].body).None?
    ensures Delivers(q, capacity) && Decode(q[0].body).Some? && Decode(q[0].body).value.ControlOnly? ==> r.Ignored?
  {
    if !Delivers(q, capacity) then Rejected
    else
      var s := q[0].body;
      match Decode(s)
      case None => Rejected
      case Some(ControlOnly(_)) => Ignored
      case Some(h) => DataReaction(h.pduType2, s[SHARE_DATA_HEADER_SIZE..])
  }

  /** The reaction to a data PDU of subtype `pduType2` whose bytes after
      the data header are `rest`: input events are the whole rest, and a
      Suppress Output PDU's flag is its first byte. */
  function DataReaction(pduType2: u8, rest: seq<u8>): (r: Reaction)
    requires pduType2 == PDUTYPE2_SUPPRESS_OUTPUT ==> |rest| >= 1
    ensures r.Input? <==> pduType2 == PDUTYPE2_INPUT
    ensures r.SuppressOutput? <==> pduType2 == PDUTYPE2_SUPPRESS_OUTPUT
    ensures r.Shutdown? <==> pduType2 == PDUTYPE2_SHUTDOWN_REQUEST
    ensures !r.Rejected?
  {
    if pduType2 == PDUTYPE2_INPUT then Input(rest)
    else if pduType2 == PDUTYPE2_SUPPRESS_OUTPUT then SuppressOutput(rest[0])
    else if pduType2 == PDUTYPE2_SHUTDOWN_REQUEST then Shutdown
    else Ignored
  }

  /** Whether the connection survives a reaction, given whether the input
      translator accepts the events and whether the VNC connection accepts
      one more framebuffer update request.  A rejected header and a
      shutdown request end it; everything ignored keeps it. */
  function Survives(r: Reaction, inputAccepted: bool, vncAccepts: bool): (ok: bool)
    ensures r.Rejected? || r.Shutdown? ==> !ok
    ensures r.Ignored? ==> ok
  {
    match r
    case Rejected => false
    case Ignored => true
    case Input(_) => inputAccepted
    case SuppressOutput(allow) => allow != ALLOW_DISPLAY_UPDATES || vncAccepts
    case Shutdown => false
  }

  /** A Suppress Output body as a client lays it out: the flag, three pad
      bytes and, when updates are allowed, the desktop rectangle. */
  function SuppressOutputBody(allow: u8, left: u16, top: u16, right: u16, bottom: u16): (r: seq<u8>)
    ensures |r| == if allow == ALLOW_DISPLAY_UPDATES then 12 else 4
  {
    [allow, 0, 0, 0]
      + if allow == ALLOW_DISPLAY_UPDATES then LE16(left) + LE16(top) + LE16(right) + LE16(bottom) else []
  }

  /** A data PDU under any well-formed data header a client may send
      (whatever its length fields, source, share and stream) reaches the
      handler of its subtype: input events arrive whole, a shutdown request
      is a shutdown, and a subtype the engine does not handle is ignored. */
  lemma ReactToDataPdu(flags: u16, channel: u16, h: ShareHeader, body: seq<u8>, capacity: nat)
    requires WellFormed(h) && h.WithData? && h.pduType2 != PDUTYPE2_SUPPRESS_OUTPUT
    requires |Encode(h) + body| <= capacity
    ensures SharePduComplete(Encode(h) + body)
    ensures var r := React([Arrived(flags, channel, Encode(h) + body)], capacity);
      && (h.pduType2 == PDUTYPE2_INPUT ==> r == Input(body))
      && (h.pduType2 == PDUTYPE2_SHUTDOWN_REQUEST ==> r == Shutdown)
      && (h.pduType2 != PDUTYPE2_INPUT && h.pduType2 != PDUTYPE2_SHUTDOWN_REQUEST ==> r == Ignored)
  {
    ReadsDataBody(h, body);
  }

  /** A Suppress Output PDU under any well-formed data header carries
      everything the engine reads from it, and the engine takes the flag
      it carries. */
  lemma ReactToSuppressOutput(flags: u16, channel: u16, h: ShareHeader, allow: u8,
                              left: u16, top: u16, right: u16, bottom: u16, capacity: nat)
    requires WellFormed(h) && h.WithData? && h.pduType2 == PDUTYPE2_SUPPRESS_OUTPUT
    requires |Encode(h) + SuppressOutputBody(allow, left, top, right, bottom)| <= capacity
    ensures var s := Encode(h) + SuppressOutputBody(allow, left, top, right, bottom);
      && SharePduComplete(s)
      && React([Arrived(flags, channel, s)], capacity) == SuppressOutput(allow)
  {
    var body := SuppressOutputBody(allow, left, top, right, bottom);
    ReadsDataBody(h, body);
    assert body[0] == allow;
  }

  /** The receive path reads a well-formed data header followed by `body`
      back as that header, with `body` behind it. */
  lemma ReadsDataBody(h: ShareHeader, body: seq<u8>)
    requires WellFormed(h) && h.WithData?
    ensures var s := Encode(h) + body;
      && DataHeaderPresent(s) && Decode(s) == Some(h)
      && |s| >= SHARE_DATA_HEADER_SIZE && s[14] == h.pduType2 && s[SHARE_DATA_HEADER_SIZE..] == body
  {
    var s := Encode(h) + body;
    DecodeEncode(h, body);
    assert s[..SHARE_DATA_HEADER_SIZE] == Encode(h);
    DecodeDataFields(h, s);
  }
}
