/**
 * The CANopen application-layer encodings the node uses (CiA 301): operating
 * states and their heartbeat codes, the NMT command table, the PDO identifier
 * range and the expedited SDO frame layout, with the properties that tie each
 * encoder to its decoder.
 */
module CanOpenProtocol {
  import opened Wrappers
  import opened CanFrames

  /** CANOPEN_OPSTATE: the NMT state of a node. */
  datatype OpState = BootUp | PreOp | Operational | Stopped

  // ---------------------------------------------------------------------------
  // Heartbeat (CiA 301 section 7.2.8.3.2)
  // ---------------------------------------------------------------------------

  const HEARTBEAT_BASE: int := 0x700

  /** The state byte a heartbeat frame carries. */
  function HeartbeatCode(s: OpState): (r: Byte)
    ensures r == 0x00 <==> s == BootUp
    ensures r == 0x00 || r == 0x04 || r == 0x05 || r == 0x7F
  {
    match s
    case Operational => 0x05
    case Stopped => 0x04
    case PreOp => 0x7F
    case BootUp => 0x00
  }

  /** What a heartbeat byte announces; None for a byte no state is coded as. */
  function HeartbeatState(b: Byte): Option<OpState>
  {
    if b == 0x05 then Some(Operational)
    else if b == 0x04 then Some(Stopped)
    else if b == 0x7F then Some(PreOp)
    else if b == 0x00 then Some(BootUp)
    else None
  }

  /** The heartbeat code identifies the state: HeartbeatState inverts HeartbeatCode. */
  lemma HeartbeatCodeInverse(s: OpState, b: Byte)
    ensures HeartbeatState(b) == Some(s) <==> HeartbeatCode(s) == b
  {
  }

  /** A heartbeat frame of node `nodeID` in state `s`; bytes 1..7 are left unspecified. */
  predicate HeartbeatLayout(nodeID: int, s: OpState, f: CanFrame)
  {
    f.id == ToUint32(HEARTBEAT_BASE + nodeID) && f.length == 1 && f.data[0] == HeartbeatCode(s)
  }

  /** A heartbeat frame tells its reader the sender's state. */
  lemma HeartbeatAnnouncesState(nodeID: int, s: OpState, f: CanFrame)
    requires HeartbeatLayout(nodeID, s, f)
    ensures HeartbeatState(f.data[0]) == Some(s)
  {
    HeartbeatCodeInverse(s, f.data[0]);
  }

  // ---------------------------------------------------------------------------
  // NMT (CiA 301 section 7.2.8.3.1)
  // ---------------------------------------------------------------------------

  /** NMT commands travel in frames with identifier 0. */
  const NMT_ID: Uint32 := 0

  const NMT_START: Byte := 0x01
  const NMT_STOP: Byte := 0x02
  const NMT_ENTER_PREOP: Byte := 0x80
  const NMT_RESET_NODE: Byte := 0x81

  /** The state an NMT command specifier sends a node to; None for any other byte. */
  function NmtTarget(cmd: Byte): (r: Option<OpState>)
    ensures r != Some(BootUp)
    ensures r.Some? <==> cmd == NMT_START || cmd == NMT_STOP || cmd == NMT_ENTER_PREOP || cmd == NMT_RESET_NODE
  {
    if cmd == NMT_START then Some(Operational)
    else if cmd == NMT_STOP then Some(Stopped)
    else if cmd == NMT_ENTER_PREOP then Some(PreOp)
    else if cmd == NMT_RESET_NODE then Some(PreOp)
    else None
  }

  /** The state after an addressed NMT command: unrecognised commands change nothing. */
  function NmtNext(s: OpState, cmd: Byte): (r: OpState)
    ensures r == BootUp ==> s == BootUp
    ensures NmtTarget(cmd).None? ==> r == s
  {
    match NmtTarget(cmd)
    case Some(t) => t
    case None => s
  }

  /** The four commands the master sends land the receiver in the documented states. */
  lemma NmtCommandEffects(s: OpState)
    ensures NmtNext(s, NMT_START) == Operational
    ensures NmtNext(s, NMT_STOP) == Stopped
    ensures NmtNext(s, NMT_ENTER_PREOP) == PreOp
    ensures NmtNext(s, NMT_RESET_NODE) == PreOp
  {
  }

  /** An NMT frame concerns node `nodeID` when it names it or broadcasts (target 0). */
  predicate NmtAddressed(nodeID: int, target: Byte)
  {
    target as int == nodeID || target == 0
  }

  /** The NMT frame the master sends; bytes 2..7 are left unspecified. */
  predicate NmtLayout(cmd: Byte, target: int, f: CanFrame)
  {
    f.id == NMT_ID && f.length == 8 && f.data[0] == cmd && f.data[1] == ByteOf(Mask7(target))
  }

  // ---------------------------------------------------------------------------
  // PDO
  // ---------------------------------------------------------------------------

  const PDO_FIRST_ID: int := 0x180
  const PDO_LAST_ID: int := 0x57F

  /** The sender's check: identifier and length a PDO may have. */
  predicate PdoSendable(id: int, length: int)
  {
    PDO_FIRST_ID <= id <= PDO_LAST_ID && 0 <= length <= 8
  }

  /** The receiver's classification of an incoming identifier as a PDO. */
  predicate IsPdoId(id: Uint32)
  {
    id > 0x17F && id < 0x580
  }

  /** The two sides draw the PDO range with different comparisons but agree on it. */
  lemma PdoRangesAgree(id: Uint32)
    ensures IsPdoId(id) <==> PDO_FIRST_ID <= id <= PDO_LAST_ID
  {
  }

  /** The PDO frame the sender emits; bytes at `length` and beyond are unspecified. */
  predicate PdoLayout(id: int, length: int, data: seq<Byte>, f: CanFrame)
    requires 0 <= length <= |data|
  {
    f.id == id && f.length == length &&
    forall x :: 0 <= x < length && x < 8 ==> f.data[x] == data[x]
  }

  // ---------------------------------------------------------------------------
  // Expedited SDO (CiA 301 section 7.2.4.3)
  // ---------------------------------------------------------------------------

  const SDO_REQUEST_BASE: int := 0x600
  const SDO_RESPONSE_BASE: int := 0x580

  /** Command specifiers as a command byte's high bits. */
  const SDO_WRITE: Byte := 0x20
  const SDO_READ: Byte := 0x40
  const SDO_WRITE_ACK: Byte := 0x60

  /**
   * SDO_FRAME: the decoded form of an expedited SDO. `data` holds the payload
   * bytes; the source reads the first `dataLength` of them.
   */
  datatype SdoFrame = SdoFrame(nodeID: int, cmd: Byte, index: Uint16, subIndex: Byte,
                               dataLength: int, data: seq<Byte>)

  /** What the encoder demands of its argument: `dataLength` bytes to read when it sends. */
  predicate SdoReadable(s: SdoFrame)
  {
    s.dataLength <= 4 ==> s.dataLength <= |s.data|
  }

  /** The low nibble packed into the command byte for `len` data bytes. */
  function SizeBits(len: int): (r: Byte)
    requires 1 <= len <= 4
    ensures r & 0xF0 == 0
    ensures r & 0x03 == 0x03
  {
    (0x0F - (len - 1) * 4) as bv8
  }

  /** Bits 2-3 of the size field hold the number of unused payload bytes. */
  lemma SizeBitsCountUnused(len: int)
    requires 1 <= len <= 4
    ensures ((SizeBits(len) & 0x0C) >> 2) as int == 4 - len
  {
    if len == 1 { } else if len == 2 { } else if len == 3 { } else { }
  }

  /** Byte 0 of an encoded SDO: the command, with the size bits when there is data. */
  function CommandByte(cmd: Byte, len: int): (r: Byte)
    requires len <= 4
    ensures r & 0xF0 == cmd & 0xF0
    ensures len <= 0 ==> r == cmd
    ensures 0 < len && cmd & 0x0F == 0 ==> r & 0x0F == SizeBits(len)
  {
    if len > 0 then cmd | SizeBits(len) else cmd
  }

  /**
   * The frame the SDO encoder emits with identifier base `base`: the masked
   * node id, the command byte, the little-endian index, the sub-index and the
   * payload. Bytes after the payload are left unspecified.
   */
  predicate SdoLayout(base: int, s: SdoFrame, f: CanFrame)
    requires s.dataLength <= 4 && s.dataLength <= |s.data|
  {
    f.id == base + Mask7(s.nodeID) && f.length == 8 &&
    f.data[0] == CommandByte(s.cmd, s.dataLength) &&
    f.data[1] == (s.index & 0xFF) as bv8 &&
    f.data[2] == (s.index >> 8) as bv8 &&
    f.data[3] == s.subIndex &&
    forall x :: 0 <= x < s.dataLength ==> f.data[4 + x] == s.data[x]
  }

  /** The payload length a received command byte announces. */
  function SdoDataLength(b0: Byte): (r: int)
    ensures 0 <= r <= 4
    ensures r == 0 <==> b0 == SDO_READ || b0 == SDO_WRITE_ACK
  {
    if b0 != SDO_READ && b0 != SDO_WRITE_ACK then (3 - (((b0 & 0x0C) >> 2) as int)) + 1 else 0
  }

  /** The SDO a node with id `nodeID` reads out of a received frame. */
  function DecodeSdo(nodeID: int, f: CanFrame): (r: SdoFrame)
    ensures r.nodeID == nodeID && r.subIndex == f.data[3]
    ensures r.cmd & 0x0F == 0 && r.cmd & 0xF0 == f.data[0] & 0xF0
    ensures (r.index & 0xFF) as bv8 == f.data[1] && (r.index >> 8) as bv8 == f.data[2]
    ensures 0 <= r.dataLength <= 4 && |r.data| == r.dataLength
    ensures forall x :: 0 <= x < r.dataLength ==> r.data[x] == f.data[4 + x]
  {
    var len := SdoDataLength(f.data[0]);
    SdoFrame(nodeID, f.data[0] & 0xF0, f.data[1] as bv16 + f.data[2] as bv16 * 0x100,
             f.data[3], len, f.data[4..4 + len])
  }

  /** The result of decoding what the encoder laid out for `s`, when it round-trips. */
  function Delivered(s: SdoFrame): SdoFrame
    requires 0 <= s.dataLength <= |s.data|
  {
    s.(nodeID := Mask7(s.nodeID), data := s.data[..s.dataLength])
  }

  /**
   * The SDOs that survive encoding and decoding: a command with a clear low
   * nibble and either 1..4 data bytes, or no data and a Read or WriteAck.
   */
  predicate RoundTrips(s: SdoFrame)
  {
    s.cmd & 0x0F == 0 && s.dataLength <= |s.data| &&
    (1 <= s.dataLength <= 4 || (s.dataLength == 0 && (s.cmd == SDO_READ || s.cmd == SDO_WRITE_ACK)))
  }

  /** A Read of object 0x1018 sub-index 1 on node 5 goes out as 0x605 [40 18 10 01 ...]. */
  lemma SdoReadRequestExample(f: CanFrame)
    requires SdoLayout(SDO_REQUEST_BASE, SdoFrame(5, SDO_READ, 0x1018, 1, 0, []), f)
    ensures f.id == 0x605 && f.length == 8 && f.data[..4] == [0x40, 0x18, 0x10, 0x01]
  {
  }

  /** Both round-trip lemmas together: decoding recovers every SDO that RoundTrips. */
  lemma SdoDecodeRecovers(base: int, s: SdoFrame, f: CanFrame)
    requires RoundTrips(s) && SdoLayout(base, s, f)
    ensures DecodeSdo(Mask7(s.nodeID), f) == Delivered(s)
  {
    if s.dataLength == 0 {
      SdoRoundTripWithoutData(base, s, f);
    } else {
      SdoRoundTrip(base, s, f);
    }
  }

  /** Decoding recovers command, index, sub-index, length and payload for 1..4 data bytes. */
  lemma SdoRoundTrip(base: int, s: SdoFrame, f: CanFrame)
    requires s.cmd & 0x0F == 0 && 1 <= s.dataLength <= 4 && s.dataLength <= |s.data|
    requires SdoLayout(base, s, f)
    ensures DecodeSdo(Mask7(s.nodeID), f) == Delivered(s)
  {
    var r := DecodeSdo(Mask7(s.nodeID), f);
    SdoHeaderRoundTrip(base, s, f);
    assert r.data == s.data[..s.dataLength];
  }

  /** The command, length and index survive the encoding of 1..4 data bytes. */
  lemma SdoHeaderRoundTrip(base: int, s: SdoFrame, f: CanFrame)
    requires s.cmd & 0x0F == 0 && 1 <= s.dataLength <= 4 && s.dataLength <= |s.data|
    requires SdoLayout(base, s, f)
    ensures var r := DecodeSdo(Mask7(s.nodeID), f);
      r.cmd == s.cmd && r.dataLength == s.dataLength && r.index == s.index
  {
    var r := DecodeSdo(Mask7(s.nodeID), f);
    assert r.cmd == s.cmd && r.dataLength == s.dataLength by {
      SizeBitsFixLength(s.dataLength, s.cmd);
    }
    assert r.index == s.index by {
      IndexBytes(s.index);
    }
  }

  /**
   * Without data only a Read (0x40) or a WriteAck (0x60) round-trips: any
   * other command byte with clear size bits is read back as four data bytes.
   */
  lemma SdoRoundTripWithoutData(base: int, s: SdoFrame, f: CanFrame)
    requires s.cmd & 0x0F == 0 && s.dataLength == 0
    requires SdoLayout(base, s, f)
    ensures DecodeSdo(Mask7(s.nodeID), f) == Delivered(s) <==> s.cmd == SDO_READ || s.cmd == SDO_WRITE_ACK
    ensures s.cmd != SDO_READ && s.cmd != SDO_WRITE_ACK ==> DecodeSdo(Mask7(s.nodeID), f).dataLength == 4
  {
    IndexBytes(s.index);
  }

  /**
   * The converse direction: re-encoding what was decoded reproduces the frame
   * exactly when its command byte lies in the encoder's image.
   */
  lemma SdoDecodeEncode(base: int, nodeID: int, f: CanFrame)
    requires 0 <= nodeID < 0x80
    ensures SdoLayout(base, DecodeSdo(nodeID, f), f) <==>
      f.id == base + nodeID && f.length == 8 &&
      (f.data[0] == SDO_READ || f.data[0] == SDO_WRITE_ACK || f.data[0] & 0x03 == 0x03)
  {
    var r := DecodeSdo(nodeID, f);
    var b0 := f.data[0];
    assert r.cmd == b0 & 0xF0 && r.dataLength == SdoDataLength(b0);
    assert SdoLayout(base, r, f) <==>
      f.id == base + nodeID && f.length == 8 && b0 == CommandByte(b0 & 0xF0, SdoDataLength(b0));
    if b0 == SDO_READ || b0 == SDO_WRITE_ACK {
      assert CommandByte(b0 & 0xF0, 0) == b0;
    } else {
      CommandByteReencodes(b0);
    }
  }

  /** The size bits for `len`, ORed onto a clear low nibble, decode back to `len`. */
  lemma SizeBitsFixLength(len: int, cmd: Byte)
    requires 1 <= len <= 4 && cmd & 0x0F == 0
    ensures (cmd | SizeBits(len)) & 0xF0 == cmd
    ensures (cmd | SizeBits(len)) != SDO_READ && (cmd | SizeBits(len)) != SDO_WRITE_ACK
    ensures SdoDataLength(cmd | SizeBits(len)) == len
  {
    var b := SizeBits(len);
    SizeBitsCountUnused(len);
    assert (cmd | b) & 0x0C == b & 0x0C;
  }

  /** A command byte other than 0x40 and 0x60 re-encodes to itself iff its low two bits are set. */
  lemma CommandByteReencodes(b0: Byte)
    requires b0 != SDO_READ && b0 != SDO_WRITE_ACK
    ensures CommandByte(b0 & 0xF0, SdoDataLength(b0)) == b0 <==> b0 & 0x03 == 0x03
  {
    var n := (b0 & 0x0C) >> 2;
    var bits := SizeBits(SdoDataLength(b0));
    assert bits == (n << 2) | 0x03 by {
      if n == 0 { } else if n == 1 { } else if n == 2 { } else { assert n == 3; }
    }
  }

  /** The two index bytes the encoder writes are the little-endian halves of the index. */
  lemma IndexBytes(index: Uint16)
    ensures ((index & 0xFF) as bv8) as bv16 + ((index >> 8) as bv8) as bv16 * 0x100 == index
  {
  }
}
