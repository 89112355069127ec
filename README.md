# due_canopen in Dafny

This is a model of the `CANOPEN` class of the due_canopen library. The library is a
minimal CANopen node built on the Arduino Due CAN driver. A node is a master or a
slave. It keeps an NMT operating state (BOOTUP, PREOP, OPERATIONAL, STOPPED) and a
node id. Master nodes send NMT commands. Every node that runs `loop` sends
heartbeats announcing its state; a slave also sends one from `begin`. Every node sends PDOs and expedited SDO requests and responses,
and it classifies each incoming frame by identifier: NMT frames drive the state
machine, and PDO and SDO frames reach four single-slot callbacks.

The model has three modules:

- `CanFrames` (`frames.dfy`): the CAN frame (identifier, length, eight data bytes)
  and the C conversions the node relies on. These are storing an int in a
  `uint32_t` or a `uint8_t`, `& 0x7F` on a two's-complement int, and the wrapping
  subtraction of `millis()` values.
- `CanOpenProtocol` (`protocol.dfy`): the CANopen encodings, as value functions and
  predicates with the lemmas that tie each encoder to its decoder. These are the
  heartbeat state codes (CiA 301 section 7.2.8.3.2), the NMT command table (CiA 301
  section 7.2.8.3.1), the PDO identifier range, and the expedited SDO layout (CiA 301
  section 7.2.4.3): command byte, size bits, little-endian index, sub-index and up to
  four data bytes.
- `CanOpenNode` (`node.dfy`): the `Node` class, whose fields are the ones the C++ object
  updates. There is one method per member function. The bus is `sent`, the log of
  frames handed to the driver's `sendFrame`. Callbacks are handles in
  `Option<Callback>` slots (`None` is a NULL pointer), and every call through a slot
  is appended to `events`. The driver's `begin` and `watchFor` calls are appended to
  `setup`. `millis()` is the parameter `now`.
  - `ReceiveFrame` is specified by two functions of the old state. `StateAfterFrame`
    gives the new NMT state. `Dispatch` gives the callbacks fired, in order.
  - Each send method is specified by a layout predicate over the frame it appends.
  - The lemmas connect the two sides. They cover NMT send and receive, SDO encode and
    decode in both directions, PDO send and receive, and heartbeat code and state.

Where a reader of CANopen might expect otherwise, the model follows the code as
written:

- Each event kind has one callback slot, not a list of listeners. Setting a
  callback replaces the previous one.
- The node's own id is never masked. Heartbeats go out on 0x700 + nodeID as stored,
  and incoming NMT and SDO frames are compared against it. Only the NMT target and
  the SDO frame's nodeID are masked when sending.
- A master processes incoming NMT frames like a slave does.
- After `begin` a slave is in BOOTUP. The first `loop` call moves it to PREOP.
- The PDO range is 0x180..0x57F on both the send side and the receive side
  (`id > 0x17F && id < 0x580`), so identifier 0x180 itself is a PDO.
- NMT "reset node" (0x81) moves the node straight to PREOP. "Reset communication"
  (0x82) and every other command byte leave the state unchanged, but they still fire
  the state-change callback.

## Model

| member | source | states |
|---|---|---|
| CanFrames.ToUint32 | due_canopen.cpp:194 | An int compared with or stored into a `uint32_t` identifier is reduced modulo 2^32, and values already in range are unchanged. |
| CanFrames.Mask7 | due_canopen.cpp:103 | `id & 0x7F` on an int is always in 0..127, agrees with the id modulo 128 (negative ids included), and leaves 0..127 unchanged. |
| CanFrames.ByteOf | due_canopen.cpp:108 | Storing an int in 0..255 into a data byte keeps its value. |
| CanFrames.Elapsed | due_canopen.cpp:263 | `millis() - lastHeartbeat` on `uint32_t` is the plain difference, or that difference plus 2^32 when the clock has wrapped. |
| CanOpenProtocol.HeartbeatCode | due_canopen.cpp:278-292 | The heartbeat byte is 0 exactly in BOOTUP and is always one of 0, 4, 5, 0x7F. |
| CanOpenProtocol.HeartbeatCodeInverse | due_canopen.cpp:278-292 | The heartbeat code is injective: decoding a byte gives state `s` exactly when `s` is coded as that byte. |
| CanOpenProtocol.HeartbeatAnnouncesState | due_canopen.cpp:273-292 | A heartbeat frame laid out for state `s` decodes back to `s`. |
| CanOpenProtocol.NmtTarget | due_canopen.cpp:173-187 | Exactly the four commands 1, 2, 0x80 and 0x81 name a target state, and none of them names BOOTUP. |
| CanOpenProtocol.NmtNext | due_canopen.cpp:173-187 | An unknown command keeps the state, and no command leads back to BOOTUP. |
| CanOpenProtocol.NmtCommandEffects | due_canopen.cpp:175-186 | Start leads to OPERATIONAL, stop to STOPPED, and enter-pre-op and reset-node to PREOP, from every state. |
| CanOpenProtocol.PdoRangesAgree | due_canopen.cpp:190 | The receiver's test `id > 0x17F && id < 0x580` accepts exactly the sender's range 0x180..0x57F. |
| CanOpenProtocol.SizeBits | due_canopen.cpp:136 | The size field `0x0F - (len - 1) * 4` touches only the low nibble and always sets the two low bits. |
| CanOpenProtocol.SizeBitsCountUnused | due_canopen.cpp:136 | Bits 2-3 of the size field count the unused payload bytes, `4 - len`. |
| CanOpenProtocol.CommandByte | due_canopen.cpp:133-137 | Byte 0 keeps the command's high nibble. With no data it is the command itself. With data and a clear low nibble, the low nibble is the size field. |
| CanOpenProtocol.SdoDataLength | due_canopen.cpp:203-207 | The decoded payload length is 0..4, and it is 0 exactly for the command bytes 0x40 and 0x60. |
| CanOpenProtocol.DecodeSdo | due_canopen.cpp:198-209 | The decoded SDO has the node id, the high nibble of byte 0 as command, bytes 1-2 as little-endian index, byte 3 as sub-index, and exactly `dataLength` payload bytes copied from bytes 4 onward. |
| CanOpenProtocol.SdoHeaderRoundTrip | due_canopen.cpp:133-140 | With 1..4 data bytes, decoding the encoder's frame recovers the command, the length and the index. |
| CanOpenProtocol.SdoRoundTrip | due_canopen.cpp:146-165 | With 1..4 data bytes and a command with a clear low nibble, decoding the encoder's frame gives the sent SDO with masked node id and trimmed payload. |
| CanOpenProtocol.SdoRoundTripWithoutData | due_canopen.cpp:203-207 | With no data, the sent SDO comes back exactly when the command is Read (0x40) or WriteAck (0x60). Any other command is read back with four data bytes. |
| CanOpenProtocol.SdoDecodeRecovers | due_canopen.cpp:194-213 | Every SDO that satisfies `RoundTrips` is recovered by decoding the frame the encoder lays out for it. |
| CanOpenProtocol.SdoDecodeEncode | due_canopen.cpp:198-207 | Re-encoding a decoded SDO reproduces the frame exactly when it carries the node's identifier, length 8, and a command byte that is 0x40, 0x60 or has both low bits set. |
| CanOpenProtocol.SizeBitsFixLength | due_canopen.cpp:205 | The size field ORed onto a clear command nibble keeps the command and decodes back to the length. |
| CanOpenProtocol.CommandByteReencodes | due_canopen.cpp:201-205 | A received command byte other than 0x40 and 0x60 is rebuilt from its decoded command and length exactly when its two low bits are set. |
| CanOpenProtocol.IndexBytes | due_canopen.cpp:199 | `byte1 + byte2 * 256` reassembles the index from the two bytes the encoder writes. |
| CanOpenProtocol.SdoReadRequestExample | due_canopen.cpp:146-165 | A Read of 0x1018 sub-index 1 sent to node 5 goes out as identifier 0x605 with bytes 40 18 10 01. |
| CanOpenNode.NmtNotForUs | due_canopen.cpp:172 | An NMT frame naming another node changes no state and fires no callback, not even the PDO or SDO ones. |
| CanOpenNode.OnlyNmtChangesState | due_canopen.cpp:170-189 | A frame with a non-zero identifier never changes the NMT state. |
| CanOpenNode.NmtStateChangeFiresOnce | due_canopen.cpp:170-189 | An addressed NMT frame fires the state-change callback exactly once, with the new state, if the callback is set. That call is the first event and goes to the handler in the state-change slot. It also fires for unknown commands. |
| CanOpenNode.PdoDispatchedIff | due_canopen.cpp:190-193 | The PDO callback receives the frame unchanged, exactly when the identifier is in 0x180..0x57F and the callback is set. |
| CanOpenNode.PdoSendReceive | due_canopen.cpp:113-123 | A PDO the sender accepts is delivered once, unchanged, to the receiver's PDO callback. |
| CanOpenNode.SdoEventsAreNeitherStateNorPdo | due_canopen.cpp:194-233 | The SDO branches of a received frame deliver no state change and no PDO. |
| CanOpenNode.NmtSendReceive | due_canopen.cpp:100-111 | The frame the master sends for a target moves a node to the command's state exactly when the masked target is 0 or the node's id. Otherwise the node's NMT state is unchanged and no callback fires. |
| CanOpenNode.SdoRequestDelivered | due_canopen.cpp:194-213 | An SDO that round-trips (`RoundTrips`), sent as a request to the node its masked id names, fires only that node's request callback, with `Delivered(sdo)`. |
| CanOpenNode.SdoReplyDelivered | due_canopen.cpp:214-233 | An SDO that round-trips (`RoundTrips`), sent as a response to the node its masked id names, fires only that node's reply callback, with `Delivered(sdo)`. |
| CanOpenNode.EncodeSdo | due_canopen.cpp:146-165 | The frame built field by field, with a byte-copy loop for the payload, satisfies the SDO layout for the masked id. |
| CanOpenNode.ReadSdo | due_canopen.cpp:198-209 | The byte-copy loop reading a received SDO computes exactly `DecodeSdo`. |
| CanOpenNode.Node.constructor | due_canopen.cpp:32-47 | A new node is a slave in BOOTUP with id 0x5F on bus 0 or 1, with no callbacks, zero timers and empty logs. |
| CanOpenNode.Node.SetMasterMode | due_canopen.cpp:49-52 | The node becomes a master. |
| CanOpenNode.Node.SetSlaveMode | due_canopen.cpp:54-57 | The node becomes a slave. |
| CanOpenNode.Node.Begin | due_canopen.cpp:59-78 | Stores the id. A master becomes OPERATIONAL, accepts every frame and sends nothing. A slave enters BOOTUP, installs its two filters and sends one boot-up heartbeat (byte 0). |
| CanOpenNode.Node.SendNodeStart | due_canopen.cpp:80-83 | A master appends an NMT start (1) frame for the target. A slave sends nothing. |
| CanOpenNode.Node.SendNodePreop | due_canopen.cpp:85-88 | A master appends an NMT enter-pre-op (0x80) frame. A slave sends nothing. |
| CanOpenNode.Node.SendNodeReset | due_canopen.cpp:90-93 | A master appends an NMT reset-node (0x81) frame. A slave sends nothing. |
| CanOpenNode.Node.SendNodeStop | due_canopen.cpp:95-98 | A master appends an NMT stop (2) frame. A slave sends nothing. |
| CanOpenNode.Node.SendNmtMsg | due_canopen.cpp:100-111 | Only a master sends. The frame has identifier 0 and length 8, with the command in byte 0 and the target masked to seven bits in byte 1. |
| CanOpenNode.Node.SendPdoMessage | due_canopen.cpp:113-123 | An id outside 0x180..0x57F or a length outside 0..8 sends nothing. Anything else appends one frame with that id and length and the first `length` data bytes. |
| CanOpenNode.Node.SendSdoResponse | due_canopen.cpp:125-144 | The caller's frame gets its node id masked in every case. At most four data bytes append one frame on 0x580 + id with the SDO layout. Otherwise nothing is sent. |
| CanOpenNode.Node.SendSdoRequest | due_canopen.cpp:146-165 | The same as the response, on identifier 0x600 + id. |
| CanOpenNode.Node.ReceiveFrame | due_canopen.cpp:167-234 | The new state is `StateAfterFrame` of the old one, and the callbacks fired, in order, are `Dispatch` of the old state and slots. |
| CanOpenNode.Node.DeliverSdoRequest | due_canopen.cpp:194-213 | A frame on 0x600 + nodeID, with the request callback set, fires it once with the decoded SDO. |
| CanOpenNode.Node.DeliverSdoReply | due_canopen.cpp:214-233 | A frame on 0x580 + nodeID, with the reply callback set, fires it once with the decoded SDO. |
| CanOpenNode.Node.SetStateChangeCallback | due_canopen.cpp:236-239 | Replaces the state-change slot. |
| CanOpenNode.Node.SetPdoCallback | due_canopen.cpp:241-244 | Replaces the PDO slot. |
| CanOpenNode.Node.SetSdoReqCallback | due_canopen.cpp:246-249 | Replaces the SDO request slot. |
| CanOpenNode.Node.SetSdoReplyCallback | due_canopen.cpp:251-254 | Replaces the SDO reply slot. |
| CanOpenNode.Node.SetHeartbeatInterval | due_canopen.cpp:256-259 | Stores the interval. |
| CanOpenNode.Node.Loop | due_canopen.cpp:261-271 | When a full interval has elapsed on the wrapping clock, sends one heartbeat with the state before the tick and restarts the timer; otherwise sends nothing. Then BOOTUP becomes PREOP, and any other state is kept. |
| CanOpenNode.Node.SendHeartbeat | due_canopen.cpp:273-296 | Appends one frame on 0x700 + id (as `uint32_t`) with length 1 and the state's code, and records the send time. |

## Left out

- The interrupt trampolines and `attachCANInterrupt` (due_canopen.cpp:22-30, 40, 45) are left out: the driver's interrupt routing is outside the node. `ReceiveFrame` is called directly, and `bus` is only the controller number. In the source `receiveFrame` runs in interrupt context, but in the model every method runs to completion. A frame arriving in the middle of `loop` is not modelled: for example, an NMT start received between its BOOTUP test and its PREOP store (due_canopen.cpp:267-269) is overwritten.
- The driver's `begin`, `watchFor` and `sendFrame` are not modelled: they belong to the CAN driver. The calls are logged, but acceptance filtering is not. As a result, `ReceiveFrame` is specified for every frame, including frames the filters would drop.
- Callback bodies are not modelled: they are application code. A call is logged as an event, so a callback that re-enters the node is not covered. The callbacks also receive pointers they could write through (due_canopen.cpp:192, 211, 231). After the PDO callback the code reads `frame->id` again for the SDO tests, but the model passes values and keeps the received frame unchanged.
- `millis()` is modelled as one `now` per call because the clock is outside the node. `sendHeartbeat` reads the clock again after sending, while the model stores the same `now` that `loop` compared against.
- Frame bytes the code never writes are left out: they are uninitialised stack memory. The layout predicates leave them unspecified, and the implementing methods write 0 there.
- SendSdoRequest, SendSdoResponse: they write the masked node id back through the caller's pointer. The model returns it as `masked` because Dafny datatypes are values.
- SendHeartbeat, ReceiveFrame: `0x700 + nodeID`, `0x600 + nodeID` and `0x580 + nodeID` are computed on unbounded integers and then converted to `uint32_t`. Signed overflow for ids near `INT_MAX` is undefined behaviour in C and is not modelled.
- The `SDO_FRAME` definition is not part of this model, because the shipped due_canopen.h is an older revision that lacks it, `sendSDORequest`, `lastHeartbeat` and the other setters. The model takes `index` to be 16 bits wide and `dataLength` to be an `int`. It requires the caller's data to hold `dataLength` bytes when at most four are sent.
- SendPdoMessage: the C code reads `length` bytes through a raw pointer. The model instead requires `data` to hold that many bytes whenever the frame is sent.
- The global instances `CanOpen0` and `CanOpen1` (due_canopen.cpp:298-299) are left out: instances are created with the constructor instead.
- Node.constructor: it sets `lastHeartbeat`, `heartbeatInterval` and the four callback slots to zero/None, which the C++ constructor (due_canopen.cpp:32-47) never does. The zeros stand for the static zero-initialisation that `CanOpen0` and `CanOpen1` receive; an instance in other storage would start with indeterminate values there.
- `sendSDOMessage` and `setSDOCallback` are left out: the header declares them, but the source never defines them.
- CAN frame fields the node never touches (extended flag, RTR, priority, family id) are left out.
