/**
 * The CANOPEN node: its role, NMT state, node id, heartbeat timer and four
 * callback slots, over a bus modelled as the log of frames it sends.
 *
 * Callbacks are recorded, not run: each slot holds a handle standing for a
 * function pointer, and every call the node makes through a slot is appended
 * to `events`. The driver's start-up and acceptance-filter calls are recorded
 * in `setup` as opaque configuration. millis() is the parameter `now`.
 */
module CanOpenNode {
  import opened Wrappers
  import opened CanFrames
  import opened CanOpenProtocol

  /** A registered callback function, identified by a handle. */
  type Callback = nat

  /** One call the node made through a callback slot, with its argument. */
  datatype Event =
    | StateChanged(handler: Callback, state: OpState)
    | PdoReceived(handler: Callback, frame: CanFrame)
    | SdoRequestReceived(handler: Callback, sdo: SdoFrame)
    | SdoReplyReceived(handler: Callback, sdo: SdoFrame)

  /** The four callback slots; None is a NULL pointer. */
  datatype Callbacks = Callbacks(stateChange: Option<Callback>, pdo: Option<Callback>,
                                 sdoRequest: Option<Callback>, sdoReply: Option<Callback>)

  /** A configuration call to the CAN driver. */
  datatype BusSetup = BusBegin(speed: int) | WatchAll | WatchFor(id: int, mask: int)

  // ---------------------------------------------------------------------------
  // What receiving a frame does, as functions of the node's state
  // ---------------------------------------------------------------------------

  /** The NMT state after receiving `f`: only an addressed NMT frame changes it. */
  function StateAfterFrame(nodeID: int, s: OpState, f: CanFrame): OpState
  {
    if f.id == NMT_ID && NmtAddressed(nodeID, f.data[1]) then NmtNext(s, f.data[0]) else s
  }

  /**
   * The callbacks receiving `f` fires, in order: the state change for an NMT
   * frame (an NMT frame for another node ends processing), the PDO callback
   * for a PDO identifier, and the SDO request and reply callbacks for the
   * node's own SDO identifiers.
   */
  function Dispatch(cbs: Callbacks, nodeID: int, s: OpState, f: CanFrame): seq<Event>
  {
    if f.id == NMT_ID && !NmtAddressed(nodeID, f.data[1]) then []
    else NmtEvents(cbs, s, f) + PdoEvents(cbs, f) + SdoRequestEvents(cbs, nodeID, f) + SdoReplyEvents(cbs, nodeID, f)
  }

  function NmtEvents(cbs: Callbacks, s: OpState, f: CanFrame): seq<Event>
  {
    if f.id == NMT_ID && cbs.stateChange.Some?
    then [StateChanged(cbs.stateChange.value, NmtNext(s, f.data[0]))] else []
  }

  function PdoEvents(cbs: Callbacks, f: CanFrame): seq<Event>
  {
    if IsPdoId(f.id) && cbs.pdo.Some? then [PdoReceived(cbs.pdo.value, f)] else []
  }

  function SdoRequestEvents(cbs: Callbacks, nodeID: int, f: CanFrame): seq<Event>
  {
    if f.id == ToUint32(SDO_REQUEST_BASE + nodeID) && cbs.sdoRequest.Some?
    then [SdoRequestReceived(cbs.sdoRequest.value, DecodeSdo(nodeID, f))] else []
  }

  function SdoReplyEvents(cbs: Callbacks, nodeID: int, f: CanFrame): seq<Event>
  {
    if f.id == ToUint32(SDO_RESPONSE_BASE + nodeID) && cbs.sdoReply.Some?
    then [SdoReplyReceived(cbs.sdoReply.value, DecodeSdo(nodeID, f))] else []
  }

  /** The states passed to state-change callbacks in `evs`, in order. */
  function StateChanges(evs: seq<Event>): seq<OpState>
  {
    if evs == [] then []
    else (if evs[0].StateChanged? then [evs[0].state] else []) + StateChanges(evs[1..])
  }

  /** The frames passed to PDO callbacks in `evs`, in order. */
  function PdoDeliveries(evs: seq<Event>): seq<CanFrame>
  {
    if evs == [] then []
    else (if evs[0].PdoReceived? then [evs[0].frame] else []) + PdoDeliveries(evs[1..])
  }

  lemma {:induction false} StateChangesAppend(a: seq<Event>, b: seq<Event>)
    ensures StateChanges(a + b) == StateChanges(a) + StateChanges(b)
  {
    if a != [] {
      assert (a + b)[1..] == a[1..] + b;
      StateChangesAppend(a[1..], b);
    } else {
      assert a + b == b;
    }
  }

  lemma {:induction false} PdoDeliveriesAppend(a: seq<Event>, b: seq<Event>)
    ensures PdoDeliveries(a + b) == PdoDeliveries(a) + PdoDeliveries(b)
  {
    if a != [] {
      assert (a + b)[1..] == a[1..] + b;
      PdoDeliveriesAppend(a[1..], b);
    } else {
      assert a + b == b;
    }
  }

  /** An NMT frame naming another node changes nothing and fires no callback. */
  lemma NmtNotForUs(cbs: Callbacks, nodeID: int, s: OpState, f: CanFrame)
    requires f.id == NMT_ID && !NmtAddressed(nodeID, f.data[1])
    ensures StateAfterFrame(nodeID, s, f) == s
    ensures Dispatch(cbs, nodeID, s, f) == []
  {
  }

  /** Frames other than NMT frames never change the NMT state. */
  lemma OnlyNmtChangesState(nodeID: int, s: OpState, f: CanFrame)
    requires f.id != NMT_ID
    ensures StateAfterFrame(nodeID, s, f) == s
  {
  }

  /**
   * An addressed NMT frame fires the state-change callback exactly once, if
   * one is set, with the resulting state, even when the command is unknown;
   * that call comes first and goes to the handler in the state-change slot.
   */
  lemma NmtStateChangeFiresOnce(cbs: Callbacks, nodeID: int, s: OpState, f: CanFrame)
    requires f.id == NMT_ID && NmtAddressed(nodeID, f.data[1])
    ensures StateChanges(Dispatch(cbs, nodeID, s, f)) ==
            if cbs.stateChange.Some? then [StateAfterFrame(nodeID, s, f)] else []
    ensures cbs.stateChange.Some? ==>
              |Dispatch(cbs, nodeID, s, f)| > 0 &&
              Dispatch(cbs, nodeID, s, f)[0] == StateChanged(cbs.stateChange.value, StateAfterFrame(nodeID, s, f))
  {
    var nmt, pdo := NmtEvents(cbs, s, f), PdoEvents(cbs, f);
    var req, rep := SdoRequestEvents(cbs, nodeID, f), SdoReplyEvents(cbs, nodeID, f);
    StateChangesAppend(nmt + pdo + req, rep);
    StateChangesAppend(nmt + pdo, req);
    StateChangesAppend(nmt, pdo);
    SdoEventsAreNeitherStateNorPdo(cbs, nodeID, f);
  }

  /** The PDO callback receives the frame itself, exactly for the PDO identifier range. */
  lemma PdoDispatchedIff(cbs: Callbacks, nodeID: int, s: OpState, f: CanFrame)
    ensures PdoDeliveries(Dispatch(cbs, nodeID, s, f)) ==
            if PDO_FIRST_ID <= f.id <= PDO_LAST_ID && cbs.pdo.Some? then [f] else []
  {
    if !(f.id == NMT_ID && !NmtAddressed(nodeID, f.data[1])) {
      var nmt, pdo := NmtEvents(cbs, s, f), PdoEvents(cbs, f);
      var req, rep := SdoRequestEvents(cbs, nodeID, f), SdoReplyEvents(cbs, nodeID, f);
      PdoDeliveriesAppend(nmt + pdo + req, rep);
      PdoDeliveriesAppend(nmt + pdo, req);
      PdoDeliveriesAppend(nmt, pdo);
      SdoEventsAreNeitherStateNorPdo(cbs, nodeID, f);
    }
  }

  /** A PDO the sender accepts reaches the receiver's PDO callback unchanged, once. */
  lemma PdoSendReceive(cbs: Callbacks, nodeID: int, s: OpState, id: int, length: int, data: seq<Byte>, f: CanFrame)
    requires PdoSendable(id, length) && length <= |data| && PdoLayout(id, length, data, f)
    ensures PdoDeliveries(Dispatch(cbs, nodeID, s, f)) == if cbs.pdo.Some? then [f] else []
  {
    PdoDispatchedIff(cbs, nodeID, s, f);
  }

  /** The SDO callbacks are neither state-change nor PDO deliveries. */
  lemma SdoEventsAreNeitherStateNorPdo(cbs: Callbacks, nodeID: int, f: CanFrame)
    ensures StateChanges(SdoRequestEvents(cbs, nodeID, f)) == []
    ensures StateChanges(SdoReplyEvents(cbs, nodeID, f)) == []
    ensures PdoDeliveries(SdoRequestEvents(cbs, nodeID, f)) == []
    ensures PdoDeliveries(SdoReplyEvents(cbs, nodeID, f)) == []
  {
  }

  /**
   * Sending and receiving NMT agree: the frame the master lays out for
   * `target` drives a node with id `nodeID` through the command exactly when
   * the masked target names it or is the broadcast 0; any other node ignores
   * the frame entirely and fires no callback.
   */
  lemma NmtSendReceive(cbs: Callbacks, cmd: Byte, target: int, f: CanFrame, nodeID: int, s: OpState)
    requires NmtLayout(cmd, target, f)
    ensures StateAfterFrame(nodeID, s, f) ==
            if Mask7(target) == 0 || Mask7(target) == nodeID then NmtNext(s, cmd) else s
    ensures !(Mask7(target) == 0 || Mask7(target) == nodeID) ==> Dispatch(cbs, nodeID, s, f) == []
  {
  }

  /**
   * An SDO request sent to a node reaches its request callback, decoded to
   * the frame that was sent, and fires nothing else.
   */
  lemma SdoRequestDelivered(cbs: Callbacks, nodeID: int, s: OpState, sdo: SdoFrame, f: CanFrame)
    requires RoundTrips(sdo) && SdoLayout(SDO_REQUEST_BASE, sdo, f)
    requires nodeID == Mask7(sdo.nodeID)
    ensures Dispatch(cbs, nodeID, s, f) ==
            if cbs.sdoRequest.Some? then [SdoRequestReceived(cbs.sdoRequest.value, Delivered(sdo))] else []
  {
    SdoDecodeRecovers(SDO_REQUEST_BASE, sdo, f);
  }

  /**
   * An SDO response sent to a node reaches its reply callback, decoded to
   * the frame that was sent, and fires nothing else.
   */
  lemma SdoReplyDelivered(cbs: Callbacks, nodeID: int, s: OpState, sdo: SdoFrame, f: CanFrame)
    requires RoundTrips(sdo) && SdoLayout(SDO_RESPONSE_BASE, sdo, f)
    requires nodeID == Mask7(sdo.nodeID)
    ensures Dispatch(cbs, nodeID, s, f) ==
            if cbs.sdoReply.Some? then [SdoReplyReceived(cbs.sdoReply.value, Delivered(sdo))] else []
  {
    SdoDecodeRecovers(SDO_RESPONSE_BASE, sdo, f);
  }

  // ---------------------------------------------------------------------------
  // The SDO encoder and decoder shared by the send and receive paths
  // ---------------------------------------------------------------------------

  /** Builds the SDO frame for an already masked node id. */
  method EncodeSdo(base: int, s: SdoFrame) returns (f: CanFrame)
    requires base == SDO_REQUEST_BASE || base == SDO_RESPONSE_BASE
    requires 0 <= s.nodeID < 0x80
    requires s.dataLength <= 4 && s.dataLength <= |s.data|
    ensures SdoLayout(base, s, f)
  {
    var b0 := s.cmd;
    if s.dataLength > 0 {
      b0 := b0 | SizeBits(s.dataLength);
    }
    var bytes: seq<Byte> := [b0, (s.index & 0xFF) as bv8, (s.index >> 8) as bv8, s.subIndex, 0, 0, 0, 0];
    ghost var header := bytes[..4];
    var x := 0;
    while x < s.dataLength
      invariant 0 <= x <= 4 && (x == 0 || x <= s.dataLength)
      invariant |bytes| == 8 && bytes[..4] == header
      invariant forall k :: 0 <= k < x ==> bytes[4 + k] == s.data[k]
    {
      bytes := bytes[4 + x := s.data[x]];
      x := x + 1;
    }
    assert bytes[0] == header[0] && bytes[1] == header[1] && bytes[2] == header[2] && bytes[3] == header[3];
    f := CanFrame(base + s.nodeID, 8, bytes);
  }

  /** Reads the SDO out of a frame addressed to node `nodeID`, copying its payload byte by byte. */
  method ReadSdo(nodeID: int, f: CanFrame) returns (r: SdoFrame)
    ensures r == DecodeSdo(nodeID, f)
  {
    var len := SdoDataLength(f.data[0]);
    var data: seq<Byte> := [];
    var x := 0;
    while x < len
      invariant 0 <= x <= len
      invariant data == f.data[4..4 + x]
    {
      data := data + [f.data[4 + x]];
      x := x + 1;
    }
    r := SdoFrame(nodeID, f.data[0] & 0xF0, f.data[1] as bv16 + f.data[2] as bv16 * 0x100,
                  f.data[3], len, data);
  }

  // ---------------------------------------------------------------------------
  // The node
  // ---------------------------------------------------------------------------

  class Node {
    /** Which CAN controller the node is bound to (Can0 or Can1). */
    const bus: nat

    var isMaster: bool
    var opState: OpState
    var nodeID: int
    var lastHeartbeat: Uint32
    var heartbeatInterval: Uint32

    var cbStateChange: Option<Callback>
    var cbGotPdoMsg: Option<Callback>
    var cbGotSdoReq: Option<Callback>
    var cbGotSdoReply: Option<Callback>

    /** Every frame handed to the driver, oldest first. */
    var sent: seq<CanFrame>
    /** Every callback invocation, oldest first. */
    var events: seq<Event>
    /** Every configuration call made to the driver, oldest first. */
    var setup: seq<BusSetup>

    /** The callback slots as one value. */
    function Slots(): Callbacks
      reads this`cbStateChange, this`cbGotPdoMsg, this`cbGotSdoReq, this`cbGotSdoReply
    {
      Callbacks(cbStateChange, cbGotPdoMsg, cbGotSdoReq, cbGotSdoReply)
    }

    /**
     * A slave in BOOTUP with node id 0x5F. The node objects are globals, so
     * the fields the constructor leaves alone start zeroed: no callbacks, a
     * zero heartbeat interval and a zero last-heartbeat time.
     */
    constructor (busNum: int)
      ensures bus == (if busNum == 0 then 0 else 1)
      ensures !isMaster && opState == BootUp && nodeID == 0x5F
      ensures lastHeartbeat == 0 && heartbeatInterval == 0
      ensures Slots() == Callbacks(None, None, None, None)
      ensures sent == [] && events == [] && setup == []
    {
      bus := if busNum == 0 then 0 else 1;
      isMaster := false;
      opState := BootUp;
      nodeID := 0x5F;
      lastHeartbeat, heartbeatInterval := 0, 0;
      cbStateChange, cbGotPdoMsg, cbGotSdoReq, cbGotSdoReply := None, None, None, None;
      sent, events, setup := [], [], [];
    }

    method SetMasterMode()
      modifies this`isMaster
      ensures isMaster
    {
      isMaster := true;
    }

    method SetSlaveMode()
      modifies this`isMaster
      ensures !isMaster
    {
      isMaster := false;
    }

    /**
     * Takes the node id as given (unmasked) and starts the driver. A master
     * becomes OPERATIONAL and accepts every frame; a slave enters BOOTUP,
     * accepts its own id and the broadcast id under mask 0x7F, and announces
     * itself with one boot-up heartbeat.
     */
    method Begin(now: Uint32, speed: int := 250000, id: int := 0x5F)
      modifies this`nodeID, this`opState, this`setup, this`sent, this`lastHeartbeat
      ensures nodeID == id
      ensures isMaster ==> opState == Operational && sent == old(sent) && lastHeartbeat == old(lastHeartbeat)
      ensures isMaster ==> setup == old(setup) + [BusBegin(speed), WatchAll]
      ensures !isMaster ==> opState == BootUp && lastHeartbeat == now
      ensures !isMaster ==> setup == old(setup) + [BusBegin(speed), WatchFor(id, 0x7F), WatchFor(0, 0x7F)]
      ensures !isMaster ==> AppendedOne(old(sent), sent) && HeartbeatLayout(id, BootUp, Last(sent))
      ensures !isMaster ==> Last(sent).data[0] == 0
    {
      nodeID := id;
      setup := setup + [BusBegin(speed)];
      if isMaster {
        opState := Operational;
        setup := setup + [WatchAll];
      } else {
        opState := BootUp;
        setup := setup + [WatchFor(id, 0x7F), WatchFor(0, 0x7F)];
        SendHeartbeat(now);
      }
    }

    method SendNodeStart(id: int := 0)
      modifies this`sent
      ensures !isMaster ==> sent == old(sent)
      ensures isMaster ==> AppendedOne(old(sent), sent) && NmtLayout(NMT_START, id, Last(sent))
    {
      SendNmtMsg(id, NMT_START);
    }

    method SendNodePreop(id: int := 0)
      modifies this`sent
      ensures !isMaster ==> sent == old(sent)
      ensures isMaster ==> AppendedOne(old(sent), sent) && NmtLayout(NMT_ENTER_PREOP, id, Last(sent))
    {
      SendNmtMsg(id, NMT_ENTER_PREOP);
    }

    method SendNodeReset(id: int := 0)
      modifies this`sent
      ensures !isMaster ==> sent == old(sent)
      ensures isMaster ==> AppendedOne(old(sent), sent) && NmtLayout(NMT_RESET_NODE, id, Last(sent))
    {
      SendNmtMsg(id, NMT_RESET_NODE);
    }

    method SendNodeStop(id: int := 0)
      modifies this`sent
      ensures !isMaster ==> sent == old(sent)
      ensures isMaster ==> AppendedOne(old(sent), sent) && NmtLayout(NMT_STOP, id, Last(sent))
    {
      SendNmtMsg(id, NMT_STOP);
    }

    /** Only a master sends NMT commands; the target id is masked to seven bits. */
    method SendNmtMsg(target: int, cmd: Byte)
      modifies this`sent
      ensures !isMaster ==> sent == old(sent)
      ensures isMaster ==> AppendedOne(old(sent), sent) && NmtLayout(cmd, target, Last(sent))
    {
      if !isMaster {
        return;
      }
      var id := Mask7(target);
      var bytes: Payload := [cmd, ByteOf(id), 0, 0, 0, 0, 0, 0];
      sent := sent + [CanFrame(NMT_ID, 8, bytes)];
    }

    /** Sends `length` bytes of `data` as a PDO, or nothing if the id or length is out of range. */
    method SendPdoMessage(id: int, length: int, data: seq<Byte>)
      requires PdoSendable(id, length) ==> length <= |data|
      modifies this`sent
      ensures !PdoSendable(id, length) ==> sent == old(sent)
      ensures PdoSendable(id, length) ==> AppendedOne(old(sent), sent) && PdoLayout(id, length, data, Last(sent))
    {
      if id > 0x57F {
        return;
      }
      if id < 0x180 {
        return;
      }
      if length > 8 || length < 0 {
        return;
      }
      var bytes: seq<Byte> := [0, 0, 0, 0, 0, 0, 0, 0];
      for x := 0 to length
        invariant |bytes| == 8
        invariant forall k :: 0 <= k < x ==> bytes[k] == data[k]
      {
        bytes := bytes[x := data[x]];
      }
      sent := sent + [CanFrame(id, length, bytes)];
    }

    /**
     * Sends an SDO request to the node `sframe.nodeID` names. The caller's
     * frame comes back with its node id masked to seven bits, whether or not
     * anything was sent; more than four data bytes send nothing.
     */
    method SendSdoRequest(sframe: SdoFrame) returns (masked: SdoFrame)
      requires SdoReadable(sframe)
      modifies this`sent
      ensures masked == sframe.(nodeID := Mask7(sframe.nodeID))
      ensures sframe.dataLength > 4 ==> sent == old(sent)
      ensures sframe.dataLength <= 4 ==>
                AppendedOne(old(sent), sent) && SdoLayout(SDO_REQUEST_BASE, sframe, Last(sent))
    {
      masked := sframe.(nodeID := Mask7(sframe.nodeID));
      if masked.dataLength <= 4 {
        var frame := EncodeSdo(SDO_REQUEST_BASE, masked);
        sent := sent + [frame];
      }
    }

    /** Sends an SDO response; identical to SendSdoRequest but on the response identifiers. */
    method SendSdoResponse(sframe: SdoFrame) returns (masked: SdoFrame)
      requires SdoReadable(sframe)
      modifies this`sent
      ensures masked == sframe.(nodeID := Mask7(sframe.nodeID))
      ensures sframe.dataLength > 4 ==> sent == old(sent)
      ensures sframe.dataLength <= 4 ==>
                AppendedOne(old(sent), sent) && SdoLayout(SDO_RESPONSE_BASE, sframe, Last(sent))
    {
      masked := sframe.(nodeID := Mask7(sframe.nodeID));
      if masked.dataLength <= 4 {
        var frame := EncodeSdo(SDO_RESPONSE_BASE, masked);
        sent := sent + [frame];
      }
    }

    /**
     * Handles one incoming frame: NMT frames drive the state, and the PDO,
     * SDO request and SDO reply callbacks receive the frames classified as
     * theirs.
     */
    method ReceiveFrame(f: CanFrame)
      modifies this`opState, this`events
      ensures opState == StateAfterFrame(nodeID, old(opState), f)
      ensures events == old(events) + Dispatch(Slots(), nodeID, old(opState), f)
    {
      ghost var cbs, s0, e0 := Slots(), opState, events;
      if f.id == NMT_ID {
        if !NmtAddressed(nodeID, f.data[1]) {
          return;
        }
        opState := NmtNext(opState, f.data[0]);
        if cbStateChange.Some? {
          events := events + [StateChanged(cbStateChange.value, opState)];
        }
      }
      ghost var e1 := events;
      assert e1 == e0 + NmtEvents(cbs, s0, f);
      if IsPdoId(f.id) {
        if cbGotPdoMsg.Some? {
          events := events + [PdoReceived(cbGotPdoMsg.value, f)];
        }
      }
      ghost var e2 := events;
      assert e2 == e1 + PdoEvents(cbs, f);
      DeliverSdoRequest(f);
      DeliverSdoReply(f);
    }

    /** The SDO request branch of ReceiveFrame. */
    method DeliverSdoRequest(f: CanFrame)
      modifies this`events
      ensures events == old(events) + SdoRequestEvents(Slots(), nodeID, f)
    {
      if f.id == ToUint32(SDO_REQUEST_BASE + nodeID) {
        if cbGotSdoReq.Some? {
          var sframe := ReadSdo(nodeID, f);
          events := events + [SdoRequestReceived(cbGotSdoReq.value, sframe)];
        }
      }
    }

    /** The SDO reply branch of ReceiveFrame. */
    method DeliverSdoReply(f: CanFrame)
      modifies this`events
      ensures events == old(events) + SdoReplyEvents(Slots(), nodeID, f)
    {
      if f.id == ToUint32(SDO_RESPONSE_BASE + nodeID) {
        if cbGotSdoReply.Some? {
          var sframe := ReadSdo(nodeID, f);
          events := events + [SdoReplyReceived(cbGotSdoReply.value, sframe)];
        }
      }
    }

    method SetStateChangeCallback(cb: Option<Callback>)
      modifies this`cbStateChange
      ensures cbStateChange == cb
    {
      cbStateChange := cb;
    }

    method SetPdoCallback(cb: Option<Callback>)
      modifies this`cbGotPdoMsg
      ensures cbGotPdoMsg == cb
    {
      cbGotPdoMsg := cb;
    }

    method SetSdoReqCallback(cb: Option<Callback>)
      modifies this`cbGotSdoReq
      ensures cbGotSdoReq == cb
    {
      cbGotSdoReq := cb;
    }

    method SetSdoReplyCallback(cb: Option<Callback>)
      modifies this`cbGotSdoReply
      ensures cbGotSdoReply == cb
    {
      cbGotSdoReply := cb;
    }

    method SetHeartbeatInterval(interval: Uint32)
      modifies this`heartbeatInterval
      ensures heartbeatInterval == interval
    {
      heartbeatInterval := interval;
    }

    /**
     * The periodic tick: a heartbeat when at least one interval has passed on
     * the wrapping millisecond clock (reporting the state before the tick),
     * then the automatic move from BOOTUP to PREOP.
     */
    method Loop(now: Uint32)
      modifies this`sent, this`lastHeartbeat, this`opState
      ensures Elapsed(old(lastHeartbeat), now) >= heartbeatInterval ==>
                AppendedOne(old(sent), sent) && HeartbeatLayout(nodeID, old(opState), Last(sent)) &&
                lastHeartbeat == now
      ensures Elapsed(old(lastHeartbeat), now) < heartbeatInterval ==>
                sent == old(sent) && lastHeartbeat == old(lastHeartbeat)
      ensures opState == if old(opState) == BootUp then PreOp else old(opState)
    {
      if Elapsed(lastHeartbeat, now) >= heartbeatInterval {
        SendHeartbeat(now);
      }
      if opState == BootUp {
        opState := PreOp;
      }
    }

    /** Announces the current state and restarts the heartbeat timer. */
    method SendHeartbeat(now: Uint32)
      modifies this`sent, this`lastHeartbeat
      ensures AppendedOne(old(sent), sent) && HeartbeatLayout(nodeID, opState, Last(sent))
      ensures lastHeartbeat == now
    {
      var bytes: Payload := [HeartbeatCode(opState), 0, 0, 0, 0, 0, 0, 0];
      sent := sent + [CanFrame(ToUint32(HEARTBEAT_BASE + nodeID), 1, bytes)];
      lastHeartbeat := now;
    }
  }
}
