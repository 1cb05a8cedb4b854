/** The Share Control Header (MS-RDPBCGR section 2.2.8.1.1.1.1, 6 bytes) and
    the Share Data Header that extends it (section 2.2.8.1.1.1.2, 18 bytes),
    with the explicit field-by-field little-endian layout that replaces the
    in-memory struct overlay of the source. */
module ShareHeaders {
  import opened Bytes
  import opened Wrappers
  import opened Protocol

  const SHARE_CONTROL_HEADER_SIZE: nat := 6
  const SHARE_DATA_HEADER_SIZE: nat := 18

  /** pduType is one 16-bit word on the wire: type in the low 4 bits,
      versionLow in the next 4, versionHigh in the high byte. */
  datatype ShareControlHeader = ShareControlHeader(
    totalLength: u16, pduType: u4, versionLow: u4, versionHigh: u8, pduSource: u16)

  /** What the engine knows after reading a share header: only the control
      part, or the control part followed by the data-header fields. */
  datatype ShareHeader =
    | ControlOnly(ctrl: ShareControlHeader)
    | WithData(ctrl: ShareControlHeader, shareId: u32, pad1: u8, streamId: u8,
               uncompressedLength: u16, pduType2: u8, compressedType: u8, compressedLength: u16)

  function HeaderSize(h: ShareHeader): nat
  {
    if h.WithData? then SHARE_DATA_HEADER_SIZE else SHARE_CONTROL_HEADER_SIZE
  }

  /** The protocol version the engine accepts and sends: (TS_PROTOCOL_VERSION, 0). */
  predicate VersionOk(c: ShareControlHeader)
  {
    c.versionLow == TS_PROTOCOL_VERSION && c.versionHigh == 0
  }

  /** A header a conforming peer can send: right version, and data fields
      present exactly when the type is PDUTYPE_DATAPDU. */
  predicate WellFormed(h: ShareHeader)
  {
    VersionOk(h.ctrl) && (h.WithData? <==> h.ctrl.pduType == PDUTYPE_DATAPDU)
  }

  function PduTypeWord(c: ShareControlHeader): u16
  {
    c.pduType + 0x10 * c.versionLow + 0x100 * c.versionHigh
  }

  function EncodeControl(c: ShareControlHeader): (r: seq<u8>)
    ensures |r| == SHARE_CONTROL_HEADER_SIZE
  {
    LE16(c.totalLength) + LE16(PduTypeWord(c)) + LE16(c.pduSource)
  }

  function Encode(h: ShareHeader): (r: seq<u8>)
    ensures |r| == HeaderSize(h)
  {
    match h
    case ControlOnly(c) => EncodeControl(c)
    case WithData(c, shareId, pad1, streamId, uncompressedLength, pduType2, compressedType, compressedLength) =>
      EncodeControl(c) + LE32(shareId) + [pad1, streamId] + LE16(uncompressedLength)
        + [pduType2, compressedType] + LE16(compressedLength)
  }

  /** The control header at the front of `s`. */
  function DecodeControl(s: seq<u8>): ShareControlHeader
    requires |s| >= SHARE_CONTROL_HEADER_SIZE
  {
    var w := U16At(s, 2);
    ShareControlHeader(U16At(s, 0), w % 0x10, (w / 0x10) % 0x10, w / 0x100, U16At(s, 4))
  }

  /** `s` starts with an acceptable control header announcing a data PDU. */
  predicate AnnouncesData(s: seq<u8>)
  {
    |s| >= SHARE_CONTROL_HEADER_SIZE && VersionOk(DecodeControl(s))
    && DecodeControl(s).pduType == PDUTYPE_DATAPDU
  }

  /** The receiver reads the 12 data-header bytes without checking that
      they arrived; a body that announces a data PDU must carry them. */
  predicate DataHeaderPresent(s: seq<u8>)
  {
    AnnouncesData(s) ==> |s| >= SHARE_DATA_HEADER_SIZE
  }

  /** The header checks of the receive path: fewer than 6 bytes or a
      wrong version is a rejection; the data-header fields are read only
      for PDUTYPE_DATAPDU. */
  function Decode(s: seq<u8>): (r: Option<ShareHeader>)
    requires DataHeaderPresent(s)
    ensures r.Some? <==> |s| >= SHARE_CONTROL_HEADER_SIZE && VersionOk(DecodeControl(s))
    ensures r.Some? ==> WellFormed(r.value) && HeaderSize(r.value) <= |s|
  {
    if |s| < SHARE_CONTROL_HEADER_SIZE then None
    else
      var c := DecodeControl(s);
      if !VersionOk(c) then None
      else if c.pduType == PDUTYPE_DATAPDU then
        Some(WithData(c, U32At(s, 6), s[10], s[11], U16At(s, 12), s[14], s[15], U16At(s, 16)))
      else Some(ControlOnly(c))
  }

  /** Decoding loses nothing: re-encoding an accepted header gives back
      the bytes it was read from. */
  lemma EncodeDecode(s: seq<u8>)
    requires DataHeaderPresent(s) && Decode(s).Some?
    ensures Encode(Decode(s).value) == s[..HeaderSize(Decode(s).value)]
  {
    EncodeDecodeControl(s);
    if Decode(s).value.WithData? {
      LE32U32At(s, 6);
      LE16U16At(s, 12);
      LE16U16At(s, 16);
      assert s[..18] == s[..6] + s[6..10] + [s[10], s[11]] + s[12..14] + [s[14], s[15]] + s[16..18];
    }
  }

  lemma LE16U16At(s: seq<u8>, i: nat)
    requires i + 2 <= |s|
    ensures LE16(U16At(s, i)) == s[i..i + 2]
  {
  }

  lemma LE32U32At(s: seq<u8>, i: nat)
    requires i + 4 <= |s|
    ensures LE32(U32At(s, i)) == s[i..i + 4]
  {
    var v := U32At(s, i);
    assert v % 0x100 == s[i];
    assert v / 0x100 == s[i + 1] as int + 0x100 * s[i + 2] as int + 0x1_0000 * s[i + 3] as int;
    assert v / 0x1_0000 == s[i + 2] as int + 0x100 * s[i + 3] as int;
    assert v / 0x100_0000 == s[i + 3];
  }

  /** The pduType word is its three fields side by side. */
  lemma PduTypeWordSplit(w: u16)
    ensures w % 0x10 + 0x10 * ((w / 0x10) % 0x10) + 0x100 * (w / 0x100) == w
  {
    var a := w / 0x10;
    assert w == 0x10 * a + w % 0x10;
    assert a == 0x10 * (a / 0x10) + a % 0x10;
    assert a / 0x10 == w / 0x100;
  }

  /** Re-encoding the decoded control header gives back its 6 bytes. */
  lemma EncodeDecodeControl(s: seq<u8>)
    requires |s| >= SHARE_CONTROL_HEADER_SIZE
    ensures EncodeControl(DecodeControl(s)) == s[..SHARE_CONTROL_HEADER_SIZE]
  {
    var w := U16At(s, 2);
    PduTypeWordSplit(w);
    assert PduTypeWord(DecodeControl(s)) == w;
    LE16U16At(s, 0);
    LE16U16At(s, 2);
    LE16U16At(s, 4);
    assert s[..6] == s[0..2] + s[2..4] + s[4..6];
  }

  /** Whatever follows it, an encoded well-formed header is read back as
      itself by the receive path. */
  lemma DecodeEncode(h: ShareHeader, rest: seq<u8>)
    requires WellFormed(h)
    ensures DataHeaderPresent(Encode(h) + rest)
    ensures Decode(Encode(h) + rest) == Some(h)
  {
    var s := Encode(h) + rest;
    assert s[..SHARE_CONTROL_HEADER_SIZE] == Encode(h)[..SHARE_CONTROL_HEADER_SIZE] == EncodeControl(h.ctrl);
    DecodeControlEncode(h.ctrl, s);
    if h.WithData? {
      assert s[..SHARE_DATA_HEADER_SIZE] == Encode(h);
      DecodeDataFields(h, s);
    }
  }

  lemma DecodeControlEncode(c: ShareControlHeader, s: seq<u8>)
    requires |s| >= SHARE_CONTROL_HEADER_SIZE && s[..SHARE_CONTROL_HEADER_SIZE] == EncodeControl(c)
    ensures DecodeControl(s) == c
  {
    assert s[0..2] == LE16(c.totalLength);
    U16AtLE16(s, 0, c.totalLength);
    assert s[2..4] == LE16(PduTypeWord(c));
    U16AtLE16(s, 2, PduTypeWord(c));
    assert s[4..6] == LE16(c.pduSource);
    U16AtLE16(s, 4, c.pduSource);
  }

  lemma DecodeDataFields(h: ShareHeader, s: seq<u8>)
    requires h.WithData? && |s| >= SHARE_DATA_HEADER_SIZE && s[..SHARE_DATA_HEADER_SIZE] == Encode(h)
    ensures U32At(s, 6) == h.shareId && s[10] == h.pad1 && s[11] == h.streamId
    ensures U16At(s, 12) == h.uncompressedLength && s[14] == h.pduType2 && s[15] == h.compressedType
    ensures U16At(s, 16) == h.compressedLength
  {
    var t := s[..SHARE_DATA_HEADER_SIZE];
    assert t[6..10] == LE32(h.shareId);
    assert t[12..14] == LE16(h.uncompressedLength);
    assert t[16..18] == LE16(h.compressedLength);
    assert s[6..10] == t[6..10] && s[12..14] == t[12..14] && s[16..18] == t[16..18];
    U32AtLE32(s, 6, h.shareId);
    U16AtLE16(s, 12, h.uncompressedLength);
    U16AtLE16(s, 16, h.compressedLength);
  }

  /** The header the send path writes for a PDU of `total` bytes (header
      included) whose type is `pduType`; the length fields are 16 bits
      wide and keep the low 16 bits of the count. */
  function OutboundHeader(pduType: u4, pduType2: u8, total: nat, userChannelId: u16): ShareHeader
  {
    var c := ShareControlHeader(total % 0x1_0000, pduType, TS_PROTOCOL_VERSION, 0, MCS_IO_CHANNEL_ID);
    if pduType == PDUTYPE_DATAPDU then
      WithData(c, 0x1000 + userChannelId, 0, STREAM_LOW, (total - 14) % 0x1_0000, pduType2, 0, 0)
    else ControlOnly(c)
  }

  function OutboundHeaderSize(pduType: u4): nat
  {
    if pduType == PDUTYPE_DATAPDU then SHARE_DATA_HEADER_SIZE else SHARE_CONTROL_HEADER_SIZE
  }

  /** A complete outbound share PDU: the header, then the body. */
  function SharePdu(pduType: u4, pduType2: u8, userChannelId: u16, body: seq<u8>): seq<u8>
  {
    Encode(OutboundHeader(pduType, pduType2, OutboundHeaderSize(pduType) + |body|, userChannelId)) + body
  }

  /** What a receiver reads back from a PDU the engine sends: totalLength is
      the PDU's exact size, the version is (TS_PROTOCOL_VERSION, 0), the
      source is the I/O channel; a data PDU also carries shareId 0x1000 plus
      the user channel, stream STREAM_LOW, uncompressedLength the size less
      14, no compression, and its pduType2; the body follows the header. */
  lemma SharePduReadsBack(pduType: u4, pduType2: u8, userChannelId: u16, body: seq<u8>)
    requires OutboundHeaderSize(pduType) + |body| < 0x1_0000
    ensures var pdu := SharePdu(pduType, pduType2, userChannelId, body);
      && DataHeaderPresent(pdu)
      && Decode(pdu).Some?
      && var h := Decode(pdu).value;
      && h.ctrl.totalLength == |pdu|
      && h.ctrl.pduType == pduType
      && h.ctrl.versionLow == TS_PROTOCOL_VERSION && h.ctrl.versionHigh == 0
      && h.ctrl.pduSource == MCS_IO_CHANNEL_ID
      && (h.WithData? <==> pduType == PDUTYPE_DATAPDU)
      && (h.WithData? ==>
            && h.shareId == 0x1000 + userChannelId
            && h.streamId == STREAM_LOW
            && h.uncompressedLength == |pdu| - 14
            && h.pduType2 == pduType2
            && h.compressedType == 0 && h.compressedLength == 0)
      && pdu[HeaderSize(h)..] == body
  {
    var h := OutboundHeader(pduType, pduType2, OutboundHeaderSize(pduType) + |body|, userChannelId);
    DecodeEncode(h, body);
  }
}
