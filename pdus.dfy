/** The bodies of the PDUs the engine sends, each as a field layout and a
    reader for it.  The reader is the independent reference: it is what a
    client applies to the bytes, and every layout is proved to read back as
    the values that were put in. */
module Pdus {
  import opened Bytes
  import opened Wrappers
  import opened Protocol

  /* ---------- License Error (valid client) ---------- */

  /** The 16-byte licensing message that tells the client no license
      exchange follows: ERROR_ALERT, version 3.0, STATUS_VALID_CLIENT,
      ST_NO_TRANSITION and an empty error blob.  Its wMsgSize field holds
      the size of the message itself. */
  function LicenseErrorBody(): (r: seq<u8>)
    ensures |r| == 16 && U16At(r, 2) == |r|
    ensures r[0] == ERROR_ALERT && r[1] == PREAMBLE_VERSION_3_0
    ensures U32At(r, 4) == STATUS_VALID_CLIENT && U32At(r, 8) == ST_NO_TRANSITION
    ensures U16At(r, 12) == BB_ERROR_BLOB && U16At(r, 14) == 0
  {
    var r := [ERROR_ALERT, PREAMBLE_VERSION_3_0] + LE16(16) + LE32(STATUS_VALID_CLIENT)
      + LE32(ST_NO_TRANSITION) + LE16(BB_ERROR_BLOB) + LE16(0);
    U16AtLE16(r, 2, 16);
    U32AtLE32(r, 4, STATUS_VALID_CLIENT);
    U32AtLE32(r, 8, ST_NO_TRANSITION);
    U16AtLE16(r, 12, BB_ERROR_BLOB);
    U16AtLE16(r, 14, 0);
    r
  }

  /* ---------- Demand Active ---------- */

  /** "RDP" and its terminating zero. */
  const SOURCE_DESCRIPTOR: seq<u8> := [0x52, 0x44, 0x50, 0x00]

  datatype DemandActive = DemandActive(
    shareId: u32, sourceDescriptor: seq<u8>, numberCapabilities: u16,
    capabilitySets: seq<u8>, sessionId: u32)

  /** The length the engine patches into lengthCombinedCapabilities: the
      distance from the start of numberCapabilities to the end of the
      capability sets, kept to 16 bits. */
  function CombinedCapabilitiesLength(capabilitySets: seq<u8>): u16
  {
    (2 + 2 + |capabilitySets|) % 0x1_0000
  }

  /** The Demand Active body after its share control header: shareId,
      lengthSourceDescriptor 4, lengthCombinedCapabilities, "RDP\0",
      numberCapabilities, two pad bytes, the capability sets, sessionId 0. */
  function DemandActiveBody(userChannelId: u16, numberCapabilities: u16, capabilitySets: seq<u8>): (r: seq<u8>)
    ensures |r| == 20 + |capabilitySets|
  {
    LE32(0x1000 + userChannelId) + LE16(|SOURCE_DESCRIPTOR|)
      + LE16(CombinedCapabilitiesLength(capabilitySets)) + SOURCE_DESCRIPTOR
      + LE16(numberCapabilities) + LE16(0) + capabilitySets + LE32(0)
  }

  /** A reader that finds every part of a Demand Active body through its
      two length fields, and rejects a body whose lengths do not add up. */
  function DecodeDemandActive(s: seq<u8>): Option<DemandActive>
  {
    if |s| < 8 then None
    else
      var sourceLength, combinedLength := U16At(s, 4), U16At(s, 6);
      var caps := 8 + sourceLength;
      if combinedLength < 4 || |s| != caps + combinedLength + 4 then None
      else Some(DemandActive(U32At(s, 0), s[8..caps], U16At(s, caps),
                             s[caps + 4..caps + combinedLength], U32At(s, caps + combinedLength)))
  }

  /** The backpatched lengths are right: a reader recovers the share id, the
      source descriptor, the capability count, exactly the capability sets
      and the session id, as long as the combined length fits its field. */
  lemma DemandActiveRoundTrip(userChannelId: u16, numberCapabilities: u16, capabilitySets: seq<u8>)
    requires 4 + |capabilitySets| < 0x1_0000
    ensures DecodeDemandActive(DemandActiveBody(userChannelId, numberCapabilities, capabilitySets))
         == Some(DemandActive(0x1000 + userChannelId, SOURCE_DESCRIPTOR, numberCapabilities, capabilitySets, 0))
  {
    var s := DemandActiveBody(userChannelId, numberCapabilities, capabilitySets);
    var n := |capabilitySets|;
    var front := LE32(0x1000 + userChannelId) + LE16(4) + LE16(n + 4)
      + SOURCE_DESCRIPTOR + LE16(numberCapabilities) + LE16(0);
    assert CombinedCapabilitiesLength(capabilitySets) == n + 4;
    assert s == front + capabilitySets + LE32(0);
    assert s[0..4] == LE32(0x1000 + userChannelId);
    U32AtLE32(s, 0, 0x1000 + userChannelId);
    assert s[4..6] == LE16(4);
    U16AtLE16(s, 4, 4);
    assert s[6..8] == LE16(n + 4);
    U16AtLE16(s, 6, n + 4);
    assert s[8..12] == SOURCE_DESCRIPTOR;
    assert s[12..14] == LE16(numberCapabilities);
    U16AtLE16(s, 12, numberCapabilities);
    assert s[16..16 + n] == capabilitySets;
    assert s[16 + n..20 + n] == LE32(0);
    U32AtLE32(s, 16 + n, 0);
  }

  /* ---------- Synchronize, Control, Font Map ---------- */

  datatype Synchronize = Synchronize(messageType: u16, targetUser: u16)

  function EncodeSynchronize(m: Synchronize): (r: seq<u8>)
    ensures |r| == 4
  {
    LE16(m.messageType) + LE16(m.targetUser)
  }

  function DecodeSynchronize(s: seq<u8>): Option<Synchronize>
  {
    if |s| != 4 then None else Some(Synchronize(U16At(s, 0), U16At(s, 2)))
  }

  lemma SynchronizeRoundTrip(m: Synchronize)
    ensures DecodeSynchronize(EncodeSynchronize(m)) == Some(m)
  {
    var s := EncodeSynchronize(m);
    U16AtLE16(s, 0, m.messageType);
    U16AtLE16(s, 2, m.targetUser);
  }

  /** The server's Synchronize body: SYNCMSGTYPE_SYNC to the I/O channel. */
  function ServerSynchronize(): Synchronize
  {
    Synchronize(SYNCMSGTYPE_SYNC, MCS_IO_CHANNEL_ID)
  }

  datatype Control = Control(action: u16, grantId: u16, controlId: u32)

  function EncodeControlPdu(m: Control): (r: seq<u8>)
    ensures |r| == 8
  {
    LE16(m.action) + LE16(m.grantId) + LE32(m.controlId)
  }

  function DecodeControlPdu(s: seq<u8>): Option<Control>
  {
    if |s| != 8 then None else Some(Control(U16At(s, 0), U16At(s, 2), U32At(s, 4)))
  }

  lemma ControlRoundTrip(m: Control)
    ensures DecodeControlPdu(EncodeControlPdu(m)) == Some(m)
  {
    var s := EncodeControlPdu(m);
    U16AtLE16(s, 0, m.action);
    U16AtLE16(s, 2, m.grantId);
    U32AtLE32(s, 4, m.controlId);
  }

  /** Control Cooperate: no grant, no control id. */
  function ServerCooperate(): Control
  {
    Control(CTRLACTION_COOPERATE, 0, 0)
  }

  /** Control Granted: control goes to the client's own user channel, and
      the control id is the server channel 0x03EA. */
  function ServerGrantControl(userChannelId: u16): Control
  {
    Control(CTRLACTION_GRANTED_CONTROL, userChannelId, SERVER_CHANNEL_ID)
  }

  datatype FontMap = FontMap(numberEntries: u16, totalNumEntries: u16, mapFlags: u16, entrySize: u16)

  function EncodeFontMap(m: FontMap): (r: seq<u8>)
    ensures |r| == 8
  {
    LE16(m.numberEntries) + LE16(m.totalNumEntries) + LE16(m.mapFlags) + LE16(m.entrySize)
  }

  function DecodeFontMap(s: seq<u8>): Option<FontMap>
  {
    if |s| != 8 then None else Some(FontMap(U16At(s, 0), U16At(s, 2), U16At(s, 4), U16At(s, 6)))
  }

  lemma FontMapRoundTrip(m: FontMap)
    ensures DecodeFontMap(EncodeFontMap(m)) == Some(m)
  {
    var s := EncodeFontMap(m);
    U16AtLE16(s, 0, m.numberEntries);
    U16AtLE16(s, 2, m.totalNumEntries);
    U16AtLE16(s, 4, m.mapFlags);
    U16AtLE16(s, 6, m.entrySize);
  }

  /** The empty font map: no entries, first and last, entry size 4.  The two
      flags are distinct bits, so their OR is their sum. */
  function ServerFontMap(): FontMap
  {
    FontMap(0, 0, FONTMAP_FIRST + FONTMAP_LAST, 0x0004)
  }

  /* ---------- Bitmap Update ---------- */

  datatype BitmapRect = BitmapRect(
    left: u16, top: u16, right: u16, bottom: u16,
    width: u16, height: u16, bitsPerPixel: u16, data: seq<u8>)

  /** A slow-path bitmap update with one uncompressed rectangle: updateType
      BITMAP, numberRectangles 1, the rectangle's fields, flags 0,
      bitmapLength, then the first `bitmapLength` bytes of `bitmapData`. */
  function BitmapUpdateBody(left: u16, top: u16, right: u16, bottom: u16,
                            width: u16, height: u16, bpp: u16,
                            bitmapLength: u16, bitmapData: seq<u8>): (r: seq<u8>)
    requires bitmapLength as int <= |bitmapData|
    ensures |r| == 22 + bitmapLength
  {
    LE16s([UPDATETYPE_BITMAP, 1, left, top, right, bottom, width, height, bpp, 0, bitmapLength])
      + bitmapData[..bitmapLength]
  }

  /** A reader for a one-rectangle uncompressed bitmap update whose
      bitmapLength accounts for every byte after the fixed fields. */
  function DecodeBitmapUpdate(s: seq<u8>): Option<BitmapRect>
  {
    if |s| < 22 || U16At(s, 0) != UPDATETYPE_BITMAP || U16At(s, 2) != 1
       || U16At(s, 18) != 0 || |s| != 22 + U16At(s, 20)
    then None
    else Some(BitmapRect(U16At(s, 4), U16At(s, 6), U16At(s, 8), U16At(s, 10),
                         U16At(s, 12), U16At(s, 14), U16At(s, 16), s[22..]))
  }

  lemma BitmapUpdateRoundTrip(left: u16, top: u16, right: u16, bottom: u16,
                              width: u16, height: u16, bpp: u16,
                              bitmapLength: u16, bitmapData: seq<u8>)
    requires bitmapLength as int <= |bitmapData|
    ensures DecodeBitmapUpdate(BitmapUpdateBody(left, top, right, bottom, width, height, bpp, bitmapLength, bitmapData))
         == Some(BitmapRect(left, top, right, bottom, width, height, bpp, bitmapData[..bitmapLength]))
  {
    var s := BitmapUpdateBody(left, top, right, bottom, width, height, bpp, bitmapLength, bitmapData);
    var fields := [UPDATETYPE_BITMAP, 1, left, top, right, bottom, width, height, bpp, 0, bitmapLength];
    var data := bitmapData[..bitmapLength];
    U16AtLE16s(fields, data, 0);
    U16AtLE16s(fields, data, 1);
    U16AtLE16s(fields, data, 2);
    U16AtLE16s(fields, data, 3);
    U16AtLE16s(fields, data, 4);
    U16AtLE16s(fields, data, 5);
    U16AtLE16s(fields, data, 6);
    U16AtLE16s(fields, data, 7);
    U16AtLE16s(fields, data, 8);
    U16AtLE16s(fields, data, 9);
    U16AtLE16s(fields, data, 10);
    assert s[22..] == bitmapData[..bitmapLength];
  }

  /* ---------- ScrBlt primary drawing order ---------- */

  datatype ScrBlt = ScrBlt(left: u16, top: u16, width: u16, height: u16, xSrc: u16, ySrc: u16)

  /** An orders update carrying one ScrBlt order with every field present
      (fieldFlags 0x7F), a type change, and the SRCCOPY raster operation.
      TS_STANDARD and TS_TYPE_CHANGE are distinct bits, so their OR is
      their sum. */
  function ScrBltOrderBody(o: ScrBlt): (r: seq<u8>)
    ensures |r| == 24
  {
    LE16(UPDATETYPE_ORDERS) + LE16(0) + LE16(1) + LE16(0)
      + [TS_STANDARD + TS_TYPE_CHANGE, TS_ENC_SCRBLT_ORDER, 0x7F]
      + LE16(o.left) + LE16(o.top) + LE16(o.width) + LE16(o.height)
      + [ROP3_SRCCOPY] + LE16(o.xSrc) + LE16(o.ySrc)
  }

  /** A reader for an orders update holding a single full ScrBlt order that
      copies the source rectangle unchanged. */
  function DecodeScrBltOrder(s: seq<u8>): Option<ScrBlt>
  {
    if |s| != 24 || U16At(s, 0) != UPDATETYPE_ORDERS || U16At(s, 4) != 1
       || s[8] != TS_STANDARD + TS_TYPE_CHANGE || s[9] != TS_ENC_SCRBLT_ORDER
       || s[10] != 0x7F || s[19] != ROP3_SRCCOPY
    then None
    else Some(ScrBlt(U16At(s, 11), U16At(s, 13), U16At(s, 15), U16At(s, 17), U16At(s, 20), U16At(s, 22)))
  }

  lemma ScrBltOrderRoundTrip(o: ScrBlt)
    ensures DecodeScrBltOrder(ScrBltOrderBody(o)) == Some(o)
  {
    var s := ScrBltOrderBody(o);
    U16AtLE16(s, 0, UPDATETYPE_ORDERS);
    assert s[4..6] == LE16(1);
    U16AtLE16(s, 4, 1);
    assert s[11..13] == LE16(o.left);
    U16AtLE16(s, 11, o.left);
    assert s[13..15] == LE16(o.top);
    U16AtLE16(s, 13, o.top);
    assert s[15..17] == LE16(o.width);
    U16AtLE16(s, 15, o.width);
    assert s[17..19] == LE16(o.height);
    U16AtLE16(s, 17, o.height);
    assert s[20..22] == LE16(o.xSrc);
    U16AtLE16(s, 20, o.xSrc);
    assert s[22..24] == LE16(o.ySrc);
    U16AtLE16(s, 22, o.ySrc);
  }
}
