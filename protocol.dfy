/** Protocol constants the RDP engine uses.  The headers that define them
    in the repository are not part of this model; the values are the ones
    fixed by MS-RDPBCGR (connection sequence and share PDUs), MS-RDPELE
    (licensing) and MS-RDPEGDI (drawing orders). */
module Protocol {
  import opened Bytes

  /** Share Control Header (MS-RDPBCGR section 2.2.8.1.1.1.1). */
  const TS_PROTOCOL_VERSION: u4 := 0x1
  const PDUTYPE_DEMANDACTIVEPDU: u4 := 0x1
  const PDUTYPE_CONFIRMACTIVEPDU: u4 := 0x3
  const PDUTYPE_DATAPDU: u4 := 0x7

  /** Share Data Header pduType2 values (MS-RDPBCGR section 2.2.8.1.1.1.2). */
  const PDUTYPE2_UPDATE: u8 := 0x02
  const PDUTYPE2_CONTROL: u8 := 0x14
  const PDUTYPE2_INPUT: u8 := 0x1C
  const PDUTYPE2_SYNCHRONIZE: u8 := 0x1F
  const PDUTYPE2_SUPPRESS_OUTPUT: u8 := 0x23
  const PDUTYPE2_SHUTDOWN_REQUEST: u8 := 0x24
  const PDUTYPE2_FONTLIST: u8 := 0x27
  const PDUTYPE2_FONTMAP: u8 := 0x28

  const STREAM_LOW: u8 := 0x01

  /** The channel every share PDU travels on, and the server's own
      channel, which the Control Granted PDU names as controlId. */
  const MCS_IO_CHANNEL_ID: u16 := 1003
  const SERVER_CHANNEL_ID: u32 := 0x03EA

  /** Security header flags (MS-RDPBCGR section 2.2.8.1.1.2.1). */
  const SEC_INFO_PKT: u16 := 0x0040
  const SEC_LICENSE_PKT: u16 := 0x0080

  /** Control PDU actions (MS-RDPBCGR section 2.2.1.15.1). */
  const CTRLACTION_REQUEST_CONTROL: u16 := 0x0001
  const CTRLACTION_GRANTED_CONTROL: u16 := 0x0002
  const CTRLACTION_COOPERATE: u16 := 0x0004

  const SYNCMSGTYPE_SYNC: u16 := 0x0001

  const FONTMAP_FIRST: u16 := 0x0001
  const FONTMAP_LAST: u16 := 0x0002

  /** Slow-path update types (MS-RDPBCGR section 2.2.9.1.1.3.1). */
  const UPDATETYPE_ORDERS: u16 := 0x0000
  const UPDATETYPE_BITMAP: u16 := 0x0001

  /** Suppress Output PDU (MS-RDPBCGR section 2.2.11.3.1). */
  const ALLOW_DISPLAY_UPDATES: u8 := 0x01

  /** License Error Message (MS-RDPELE section 2.2.1.12.1.3 and 2.2.2.7). */
  const ERROR_ALERT: u8 := 0xFF
  const PREAMBLE_VERSION_3_0: u8 := 0x03
  const STATUS_VALID_CLIENT: u32 := 0x0000_0007
  const ST_NO_TRANSITION: u32 := 0x0000_0002
  const BB_ERROR_BLOB: u16 := 0x0004

  /** Primary drawing orders (MS-RDPEGDI sections 2.2.2.2.1.1.2 and 2.2.2.2.1.1.2.7). */
  const TS_STANDARD: u8 := 0x01
  const TS_TYPE_CHANGE: u8 := 0x08
  const TS_ENC_SCRBLT_ORDER: u8 := 0x02
  /** The SRCCOPY raster operation. */
  const ROP3_SRCCOPY: u8 := 0xCC
}
