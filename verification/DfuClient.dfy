/**
  The bridge's firmware-update client (Nordic Legacy DFU): the state machine as a value, `Client`,
  and the class `DfuClient` whose methods update fields in place and are proved to follow it.
 */
module DfuClients {
  import opened Bytes

  const OP_START_DFU: byte := 0x01
  const OP_INIT_DFU_PARAMS: byte := 0x02
  const OP_RECEIVE_FW: byte := 0x03
  const OP_VALIDATE_FW: byte := 0x04
  const OP_ACTIVATE_RESET: byte := 0x05
  const OP_PKT_RECEIPT_REQ: byte := 0x08
  const OP_RESPONSE: byte := 0x10
  const OP_PKT_RECEIPT_NOTIF: byte := 0x11
  const IMAGE_TYPE_APP: byte := 0x04
  const RESULT_SUCCESS: byte := 0x01
  const RECEIPT_INTERVAL: nat := 10
  const CHUNK_SIZE: nat := 20

  datatype DfuState =
    | IDLE | DOWNLOADING | CONNECTING | DISCOVERING | STARTING | SENDING_INIT
    | SENDING_FIRMWARE | VALIDATING | ACTIVATING | COMPLETE | FAILED

  /** One call of write_char: characteristic handle, bytes, and whether a response is requested. */
  datatype Write = Write(handle: nat, data: seq<byte>, response: bool)

  /** What happens to the client: calls from the bridge and GATT events. */
  datatype Input =
    | Start(bin: seq<byte>, dat: seq<byte>)   // an empty buffer is a failed download
    | Discovered(ctrl: nat, pkt: nat)
    | Process
    | Notify(handle: nat, data: seq<byte>)
    | WriteStatus(ok: bool)
    | Disconnect
    | Reset

  /** Number of CHUNK_SIZE pieces an n-byte image is cut into. */
  function ChunkCount(n: nat): nat { (n + CHUNK_SIZE - 1) / CHUNK_SIZE }

  /** Bytes covered by the first q pieces of an n-byte image. */
  function Covered(n: nat, q: nat): nat { Min(CHUNK_SIZE * q, n) }

  /** The i-th piece of an image. */
  function Chunk(bin: seq<byte>, i: nat): seq<byte>
  {
    bin[Covered(|bin|, i)..Covered(|bin|, i + 1)]
  }

  /** Pieces lo, lo+1, ..., hi-1 of an image. */
  function Chunks(bin: seq<byte>, lo: nat, hi: nat): (cs: seq<seq<byte>>)
    requires lo <= hi
  {
    seq(hi - lo, i requires 0 <= i < hi - lo => Chunk(bin, lo + i))
  }

  /**
    The client's fields. `writes` is everything handed to write_char so far; `chunks` and `receipts`
    are the firmware pieces sent and the packet receipts handled since the transfer was last rewound.
   */
  datatype Client = Client(
    state: DfuState, bin: seq<byte>, dat: seq<byte>, ctrl: nat, pkt: nat,
    sent: nat, window: nat, waiting: bool,
    writes: seq<Write>, chunks: seq<seq<byte>>, receipts: nat)
  {
    predicate Quiet() { state.IDLE? || state.COMPLETE? || state.FAILED? }

    function Put(handle: nat, data: seq<byte>, response: bool): Client
    {
      this.(writes := writes + [Write(handle, data, response)])
    }

    function Fail(): Client { this.(state := FAILED) }

    function Rewound(): Client
    {
      this.(sent := 0, window := 0, chunks := [], receipts := 0)
    }

    function Begin(newBin: seq<byte>, newDat: seq<byte>): Client
    {
      var c := this.Rewound().(state := DOWNLOADING, waiting := false, bin := newBin);
      if newBin == [] then c.(dat := []).Fail()
      else if newDat == [] then c.(dat := []).Fail()
      else c.(dat := newDat, state := CONNECTING)
    }

    function ServicesDiscovered(newCtrl: nat, newPkt: nat): Client
    {
      var c := this.(ctrl := newCtrl, pkt := newPkt);
      if newCtrl == 0 || newPkt == 0 then c.Fail() else c.(state := STARTING).SendStartDfu()
    }

    function SendStartDfu(): Client
    {
      this.Put(ctrl, [OP_START_DFU, IMAGE_TYPE_APP], true)
          .Put(pkt, [0, 0, 0, 0, 0, 0, 0, 0] + Le32(Wrap(|bin|)), false)
          .(waiting := true)
    }

    function SendInitPacket(): Client
    {
      this.Put(ctrl, [OP_INIT_DFU_PARAMS, 0x00], true)
          .Put(pkt, dat, false)
          .Put(ctrl, [OP_INIT_DFU_PARAMS, 0x01], true)
          .(waiting := true)
    }

    function SendChunk(): Client
      requires sent < |bin|
    {
      var piece := bin[sent..sent + Min(|bin| - sent, CHUNK_SIZE)];
      this.Put(pkt, piece, false)
          .(sent := sent + |piece|, window := window + 1, chunks := chunks + [piece])
    }

    /** The chunk loop: until the image is out or the receipt window is full. */
    function Drain(): Client
      decreases |bin| - sent
    {
      if sent < |bin| && window < RECEIPT_INTERVAL then this.SendChunk().Drain() else this.(waiting := true)
    }

    function SendFirmwareChunks(): Client { if waiting then this else this.Drain() }

    function SendValidate(): Client
    {
      this.Put(ctrl, [OP_VALIDATE_FW], true).(waiting := true)
    }

    function SendActivate(): Client
    {
      this.Put(ctrl, [OP_ACTIVATE_RESET], true).(state := COMPLETE)
    }

    function BeginTransfer(): Client
    {
      this.Rewound().(state := SENDING_FIRMWARE)
          .Put(ctrl, [OP_PKT_RECEIPT_REQ, RECEIPT_INTERVAL % 256, RECEIPT_INTERVAL / 256], true)
          .Put(ctrl, [OP_RECEIVE_FW], true)
          .SendFirmwareChunks()
    }

    function HandleResponse(op: byte, result: byte): Client
    {
      if result != RESULT_SUCCESS then this.Fail()
      else if op == OP_START_DFU then this.(state := SENDING_INIT).SendInitPacket()
      else if op == OP_INIT_DFU_PARAMS then this.BeginTransfer()
      else if op == OP_RECEIVE_FW then this.(state := VALIDATING).SendValidate()
      else if op == OP_VALIDATE_FW then this.(state := ACTIVATING).SendActivate()
      else this
    }

    function HandleReceipt(): Client
    {
      this.(window := 0, receipts := receipts + 1).SendFirmwareChunks()
    }

    function HandleNotification(data: seq<byte>): Client
    {
      if |data| < 1 then this
      else
        var c := this.(waiting := false);
        if data[0] == OP_RESPONSE && |data| >= 3 then c.HandleResponse(data[1], data[2])
        else if data[0] == OP_PKT_RECEIPT_NOTIF && |data| >= 5 then c.HandleReceipt()
        else c
    }

    function ProcessTick(): Client
    {
      if state.SENDING_FIRMWARE? && !waiting then this.SendFirmwareChunks() else this
    }

    function ResetAll(): Client { this.(state := IDLE, bin := [], dat := []) }

    /** One event. The bridge announces the DFU handles only while the client is CONNECTING. */
    function Step(e: Input): Client
    {
      match e
      case Start(newBin, newDat) => this.Begin(newBin, newDat)
      case Discovered(c, p) => if state.CONNECTING? then this.ServicesDiscovered(c, p) else this
      case Process => this.ProcessTick()
      case Notify(h, data) => if Quiet() || h != ctrl then this else this.HandleNotification(data)
      case WriteStatus(ok) => if Quiet() || ok then this else this.Fail()
      case Disconnect => if Quiet() then this else this.Fail()
      case Reset => this.ResetAll()
    }

    function Run(es: seq<Input>): Client
      decreases |es|
    {
      if es == [] then this else this.Step(es[0]).Run(es[1..])
    }
  }

  const Fresh := Client(IDLE, [], [], 0, 0, 0, 0, false, [], [], 0)

  // ---------------------------------------------------------------- chunk arithmetic

  lemma ChunksSnoc(bin: seq<byte>, lo: nat, hi: nat)
    requires lo <= hi
    ensures Chunks(bin, lo, hi + 1) == Chunks(bin, lo, hi) + [Chunk(bin, hi)]
  {
  }

  /** Cutting an image and concatenating the pieces gives the image back, prefix by prefix. */
  lemma {:induction false} ChunksConcat(bin: seq<byte>, q: nat)
    ensures Flatten(Chunks(bin, 0, q)) == bin[..Covered(|bin|, q)]
  {
    if q > 0 {
      ChunksConcat(bin, q - 1);
      ChunksSnoc(bin, 0, q - 1);
    }
  }

  /** Every piece but the last is full, the last is not empty, and ChunkCount pieces are the whole image. */
  lemma ChunkShape(bin: seq<byte>, i: nat)
    requires i < ChunkCount(|bin|)
    ensures CHUNK_SIZE * i < |bin|
    ensures 0 < |Chunk(bin, i)| <= CHUNK_SIZE
    ensures |Chunk(bin, i)| == CHUNK_SIZE || i == ChunkCount(|bin|) - 1
    ensures Covered(|bin|, ChunkCount(|bin|)) == |bin|
  {
  }

  // ---------------------------------------------------------------- what survives any notification

  /**
    The transfer invariant: the pieces since the rewind are exactly the first ones of the image, the byte
    counter is what they cover, and the window never admits more than one receipt interval ahead.
   */
  ghost predicate Transfer(c: Client)
  {
    && |c.chunks| <= ChunkCount(|c.bin|)
    && c.chunks == Chunks(c.bin, 0, |c.chunks|)
    && c.sent == Covered(|c.bin|, |c.chunks|)
    && c.window <= RECEIPT_INTERVAL
    && |c.chunks| <= RECEIPT_INTERVAL * c.receipts + c.window
  }

  ghost predicate Sound(c: Client) { c.state.IDLE? || Transfer(c) }

  lemma {:induction false} DrainKeeps(c: Client)
    requires Transfer(c)
    ensures Transfer(c.Drain()) && c.Drain().state == c.state
    decreases |c.bin| - c.sent
  {
    if c.sent < |c.bin| && c.window < RECEIPT_INTERVAL {
      DrainKeeps(c.SendChunk());
    }
  }

  lemma NotificationKeeps(c: Client, data: seq<byte>)
    requires Transfer(c)
    ensures Transfer(c.HandleNotification(data))
  {
    if |data| >= 1 {
      var d := c.(waiting := false);
      if data[0] == OP_RESPONSE && |data| >= 3 {
        if data[2] == RESULT_SUCCESS && data[1] == OP_INIT_DFU_PARAMS {
          DrainKeeps(d.Rewound().(state := SENDING_FIRMWARE)
                      .Put(d.ctrl, [OP_PKT_RECEIPT_REQ, RECEIPT_INTERVAL % 256, RECEIPT_INTERVAL / 256], true)
                      .Put(d.ctrl, [OP_RECEIVE_FW], true));
        }
      } else if data[0] == OP_PKT_RECEIPT_NOTIF && |data| >= 5 {
        DrainKeeps(d.(window := 0, receipts := d.receipts + 1));
      }
    }
  }

  /** Any event at all keeps the transfer sound, and a quiet client issues no write. */
  lemma StepKeeps(c: Client, e: Input)
    requires Sound(c)
    ensures Sound(c.Step(e))
    ensures c.Quiet() ==> c.Step(e).writes == c.writes
  {
    match e
    case Notify(h, data) => if !c.Quiet() { NotificationKeeps(c, data); }
    case Process => if c.state.SENDING_FIRMWARE? { DrainKeeps(c); }
    case _ =>
  }

  lemma {:induction false} RunKeeps(c: Client, es: seq<Input>)
    requires Sound(c)
    ensures Sound(c.Run(es))
    decreases |es|
  {
    if es != [] {
      StepKeeps(c, es[0]);
      RunKeeps(c.Step(es[0]), es[1..]);
    }
  }

  /**
    Over every sequence of downloads, discoveries, ticks, disconnects and arbitrary notifications: in every
    state but IDLE the pieces sent since the last rewind concatenate to the first bytes_sent_ bytes of the
    image, all but the last are full, and there are at most 10 * (receipts + 1) of them.
   */
  lemma ArbitraryNotifications(es: seq<Input>)
    ensures var c := Fresh.Run(es);
            !c.state.IDLE? ==>
              && c.sent <= |c.bin|
              && Flatten(c.chunks) == c.bin[..c.sent]
              && (forall i :: 0 <= i < |c.chunks| ==> 0 < |c.chunks[i]| <= CHUNK_SIZE)
              && (forall i :: 0 <= i < |c.chunks| - 1 ==> |c.chunks[i]| == CHUNK_SIZE)
              && c.window <= RECEIPT_INTERVAL
              && |c.chunks| <= RECEIPT_INTERVAL * (c.receipts + 1)
  {
    RunKeeps(Fresh, es);
    var c := Fresh.Run(es);
    if !c.state.IDLE? {
      ChunksConcat(c.bin, |c.chunks|);
      forall i | 0 <= i < |c.chunks|
        ensures 0 < |c.chunks[i]| <= CHUNK_SIZE && (i < |c.chunks| - 1 ==> |c.chunks[i]| == CHUNK_SIZE)
      {
        ChunkShape(c.bin, i);
        assert c.chunks[i] == Chunk(c.bin, i);
      }
    }
  }

  // ---------------------------------------------------------------- what a session needs

  /** An IDLE client holds nothing; one that is neither IDLE nor FAILED holds an image and an init packet. */
  ghost predicate Stocked(c: Client)
  {
    && (c.state.IDLE? ==> c.bin == [] && c.dat == [])
    && (!c.state.IDLE? && !c.state.FAILED? ==> !c.state.DOWNLOADING? && c.bin != [] && c.dat != [])
  }

  lemma {:induction false} DrainFrame(c: Client)
    ensures var d := c.Drain(); d.bin == c.bin && d.dat == c.dat && d.state == c.state
    decreases |c.bin| - c.sent
  {
    if c.sent < |c.bin| && c.window < RECEIPT_INTERVAL { DrainFrame(c.SendChunk()); }
  }

  lemma NotificationFrame(c: Client, data: seq<byte>)
    requires !c.Quiet() && !c.state.DOWNLOADING?
    ensures var d := c.HandleNotification(data);
            d.bin == c.bin && d.dat == c.dat && !d.state.IDLE? && !d.state.DOWNLOADING?
  {
    if |data| >= 1 {
      var d := c.(waiting := false);
      DrainFrame(d.(window := 0, receipts := d.receipts + 1));
      DrainFrame(d.Rewound().(state := SENDING_FIRMWARE)
                  .Put(d.ctrl, [OP_PKT_RECEIPT_REQ, RECEIPT_INTERVAL % 256, RECEIPT_INTERVAL / 256], true)
                  .Put(d.ctrl, [OP_RECEIVE_FW], true));
    }
  }

  lemma StepStocks(c: Client, e: Input)
    requires Stocked(c)
    ensures Stocked(c.Step(e))
  {
    match e
    case Notify(h, data) => if !c.Quiet() { NotificationFrame(c, data); }
    case Process => DrainFrame(c);
    case _ =>
  }

  lemma {:induction false} RunStocks(c: Client, es: seq<Input>)
    requires Stocked(c)
    ensures Stocked(c.Run(es))
    decreases |es|
  {
    if es != [] {
      StepStocks(c, es[0]);
      RunStocks(c.Step(es[0]), es[1..]);
    }
  }

  /** Over every run a client that is neither IDLE nor FAILED has both downloads; an IDLE one has released them. */
  lemma BothDownloaded(es: seq<Input>)
    ensures Stocked(Fresh.Run(es))
  {
    RunStocks(Fresh, es);
  }

  /** A client that is IDLE, COMPLETE or FAILED writes nothing until the next start. */
  lemma {:induction false} QuietUntilStart(c: Client, es: seq<Input>)
    requires c.Quiet() && forall e :: e in es ==> !e.Start?
    ensures c.Run(es).Quiet() && c.Run(es).writes == c.writes
    decreases |es|
  {
    if es != [] {
      assert es[0] in es;
      QuietUntilStart(c.Step(es[0]), es[1..]);
    }
  }

  /** A start gets as far as connecting exactly if both downloads have arrived; else nothing is written until the next one. */
  lemma StartNeedsBoth(c: Client, bin: seq<byte>, dat: seq<byte>, es: seq<Input>)
    requires forall e :: e in es ==> !e.Start?
    ensures var d := c.Step(Start(bin, dat));
            && (if bin != [] && dat != [] then d.state.CONNECTING? && d.bin == bin && d.dat == dat else d.state.FAILED?)
            && (bin == [] || dat == [] ==> d.Run(es).Quiet() && !d.Run(es).state.COMPLETE? && d.Run(es).writes == c.writes)
  {
    var d := c.Step(Start(bin, dat));
    if bin == [] || dat == [] {
      QuietUntilStart(d, es);
      NeverComplete(d, es);
    }
  }

  lemma {:induction false} NeverComplete(c: Client, es: seq<Input>)
    requires (c.state.IDLE? || c.state.FAILED?) && forall e :: e in es ==> !e.Start?
    ensures c.Run(es).state.IDLE? || c.Run(es).state.FAILED?
    decreases |es|
  {
    if es != [] {
      assert es[0] in es;
      NeverComplete(c.Step(es[0]), es[1..]);
    }
  }

  /** A write reported failed, or a disconnect reported, stops the session for good. */
  lemma ReportedLossStops(c: Client, e: Input, es: seq<Input>)
    requires e == WriteStatus(false) || e == Disconnect
    requires forall e :: e in es ==> !e.Start?
    ensures c.Step(e).Run(es).writes == c.writes
  {
    QuietUntilStart(c.Step(e), es);
  }

  /** A discovery starts the protocol exactly if the client waits for it and both handles are found. */
  lemma DiscoveryStartsIff(c: Client, ctrl: nat, pkt: nat)
    ensures c.Step(Discovered(ctrl, pkt)).writes != c.writes <==> c.state.CONNECTING? && ctrl != 0 && pkt != 0
    ensures c.state.CONNECTING? && (ctrl == 0 || pkt == 0) ==> c.Step(Discovered(ctrl, pkt)).state.FAILED?
  {
    if c.state.CONNECTING? && ctrl != 0 && pkt != 0 {
      assert |c.Step(Discovered(ctrl, pkt)).writes| == |c.writes| + 2;
    }
  }

  // ---------------------------------------------------------------- stray notifications

  lemma {:induction false} DrainFills(c: Client)
    requires Transfer(c)
    ensures var d := c.Drain(); d.waiting && Transfer(d) && (d.window == RECEIPT_INTERVAL || d.sent == |d.bin|)
    decreases |c.bin| - c.sent
  {
    if c.sent < |c.bin| && c.window < RECEIPT_INTERVAL {
      DrainFills(c.SendChunk());
    }
  }

  /** A client that a stray notification has stopped waiting goes on at the next tick, up to the window or the image's end. */
  lemma TickFills(c: Client)
    requires Transfer(c) && c.state.SENDING_FIRMWARE?
    ensures var d := c.Step(Process);
            && d.waiting && (c.waiting ==> d == c)
            && (!c.waiting ==> d.window == RECEIPT_INTERVAL || d.sent == |d.bin|)
  {
    DrainFills(c);
  }

  /** Neither a response of three bytes nor a receipt of five. */
  predicate Stray(data: seq<byte>)
  {
    !(|data| >= 3 && data[0] == 0x10) && !(|data| >= 5 && data[0] == 0x11)
  }

  /** A stray notification writes nothing and only stops the client waiting, an empty one not even that. */
  lemma StrayIsHarmless(c: Client, h: nat, data: seq<byte>)
    requires Stray(data)
    ensures c.Step(Notify(h, data)) == c.(waiting := c.waiting && (c.Quiet() || h != c.ctrl || data == []))
  {
  }

  /** The states that answers lead to, in the order of the protocol. */
  function AnswerLeadsTo(op: byte): DfuState
    requires op in {1, 2, 3, 4}
  {
    if op == 1 then SENDING_INIT else if op == 2 then SENDING_FIRMWARE else if op == 3 then VALIDATING else COMPLETE
  }

  /**
    Answers are not checked against the state: in every active state a successful answer leads to the state after its
    opcode, having written something, and an answer that reports an error to FAILED, having written nothing.
   */
  lemma AnswersAreUnchecked(c: Client, op: byte, result: byte)
    requires !c.Quiet() && op in {1, 2, 3, 4}
    ensures var d := c.Step(Notify(c.ctrl, [0x10, op, result]));
            if result == 1 then d.state == AnswerLeadsTo(op) && |d.writes| > |c.writes| else d.state.FAILED? && d.writes == c.writes
  {
    var d := c.(waiting := false);
    assert c.Step(Notify(c.ctrl, [0x10, op, result])) == d.HandleResponse(op, result);
    if result == 1 && op == 2 {
      var e := d.Rewound().(state := SENDING_FIRMWARE)
                .Put(d.ctrl, [OP_PKT_RECEIPT_REQ, RECEIPT_INTERVAL % 256, RECEIPT_INTERVAL / 256], true)
                .Put(d.ctrl, [OP_RECEIVE_FW], true);
      DrainFrame(e);
      DrainWrites(e);
    }
  }

  lemma {:induction false} DrainWrites(c: Client)
    ensures |c.Drain().writes| >= |c.writes|
    decreases |c.bin| - c.sent
  {
    if c.sent < |c.bin| && c.window < RECEIPT_INTERVAL { DrainWrites(c.SendChunk()); }
  }

  /** Nor are receipts: in every active state one opens a new window and goes on sending the image. */
  lemma ReceiptsAreUnchecked(c: Client, data: seq<byte>)
    requires !c.Quiet() && Transfer(c) && |data| >= 5 && data[0] == 0x11
    ensures var d := c.Step(Notify(c.ctrl, data));
            && d.state == c.state && d.waiting && (d.window == RECEIPT_INTERVAL || d.sent == |d.bin|)
            && (c.sent < |c.bin| ==> |d.writes| > |c.writes|)
  {
    var d := c.(waiting := false, window := 0, receipts := c.receipts + 1);
    assert c.Step(Notify(c.ctrl, data)) == d.Drain();
    DrainFills(d);
    DrainFrame(d);
    if c.sent < |c.bin| { DrainWrites(d.SendChunk()); }
  }

  /** So a watch that answers VALIDATE right after the sizes makes the client COMPLETE with no byte of the image sent. */
  lemma CompleteWithoutTransfer(bin: seq<byte>, dat: seq<byte>, ctrl: nat, pkt: nat)
    requires bin != [] && dat != [] && ctrl != 0 && pkt != 0
    ensures var c := Fresh.Step(Start(bin, dat)).Step(Discovered(ctrl, pkt)).Step(Notify(ctrl, [0x10, 4, 1]));
            c.state.COMPLETE? && c.sent == 0 && c.chunks == []
  {
    var c := Fresh.Step(Start(bin, dat)).Step(Discovered(ctrl, pkt));
    assert c.state.STARTING? && c.ctrl == ctrl && c.sent == 0 && c.chunks == [];
    assert c.Step(Notify(ctrl, [0x10, 4, 1])) == c.(waiting := false).HandleResponse(4, 1);
  }

  // ---------------------------------------------------------------- the class

  class DfuClient {
    var state: DfuState
    var binData: seq<byte>
    var datData: seq<byte>
    var ctrlHandle: nat
    var pktHandle: nat
    var bytesSent: nat
    var packetsSinceReceipt: nat
    var waitingForNotification: bool
    ghost var writes: seq<Write>
    ghost var chunks: seq<seq<byte>>
    ghost var receipts: nat

    ghost function View(): Client
      reads this
    {
      Client(state, binData, datData, ctrlHandle, pktHandle, bytesSent, packetsSinceReceipt,
             waitingForNotification, writes, chunks, receipts)
    }

    constructor ()
      ensures View() == Fresh
    {
      state, binData, datData := IDLE, [], [];
      ctrlHandle, pktHandle := 0, 0;
      bytesSent, packetsSinceReceipt, waitingForNotification := 0, 0, false;
      writes, chunks, receipts := [], [], 0;
    }

    method WriteChar(handle: nat, data: seq<byte>, response: bool)
      modifies this`writes
      ensures View() == old(View()).Put(handle, data, response)
    {
      writes := writes + [Write(handle, data, response)];
    }

    method Fail()
      modifies this`state
      ensures View() == old(View()).Fail()
    {
      state := FAILED;
    }

    /** start(): `bin` and `dat` are what the two downloads left in their buffers, empty if they failed. */
    method Start(bin: seq<byte>, dat: seq<byte>)
      modifies this
      ensures View() == old(View()).Begin(bin, dat)
    {
      state := DOWNLOADING;
      bytesSent, packetsSinceReceipt, waitingForNotification := 0, 0, false;
      chunks, receipts := [], 0;
      binData, datData := [], [];
      binData := bin;
      if bin == [] {
        Fail();
        return;
      }
      datData := dat;
      if dat == [] {
        Fail();
        return;
      }
      state := CONNECTING;
    }

    method OnServicesDiscovered(ctrl: nat, pkt: nat)
      modifies this
      ensures View() == old(View()).ServicesDiscovered(ctrl, pkt)
    {
      ctrlHandle, pktHandle := ctrl, pkt;
      if ctrlHandle == 0 || pktHandle == 0 {
        Fail();
        return;
      }
      state := STARTING;
      SendStartDfu();
    }

    method SendStartDfu()
      modifies this
      ensures View() == old(View()).SendStartDfu()
    {
      WriteChar(ctrlHandle, [OP_START_DFU, IMAGE_TYPE_APP], true);
      var sizes := [0, 0, 0, 0, 0, 0, 0, 0] + Le32(Wrap(|binData|));
      WriteChar(pktHandle, sizes, false);
      waitingForNotification := true;
    }

    method SendInitPacket()
      modifies this
      ensures View() == old(View()).SendInitPacket()
    {
      WriteChar(ctrlHandle, [OP_INIT_DFU_PARAMS, 0x00], true);
      WriteChar(pktHandle, datData, false);
      WriteChar(ctrlHandle, [OP_INIT_DFU_PARAMS, 0x01], true);
      waitingForNotification := true;
    }

    method SendChunk()
      requires bytesSent < |binData|
      modifies this
      ensures View() == old(View()).SendChunk()
    {
      var remaining := |binData| - bytesSent;
      var chunkLen := if remaining < CHUNK_SIZE then remaining else CHUNK_SIZE;
      var piece := binData[bytesSent..bytesSent + chunkLen];
      WriteChar(pktHandle, piece, false);
      bytesSent := bytesSent + chunkLen;
      packetsSinceReceipt := packetsSinceReceipt + 1;
      chunks := chunks + [piece];
    }

    method SendFirmwareChunks()
      modifies this
      ensures View() == old(View()).SendFirmwareChunks()
    {
      if waitingForNotification { return; }
      while bytesSent < |binData| && packetsSinceReceipt < RECEIPT_INTERVAL
        invariant !waitingForNotification
        invariant View().Drain() == old(View()).Drain()
        decreases |binData| - bytesSent
      {
        SendChunk();
      }
      if bytesSent >= |binData| {
        waitingForNotification := true;
      } else if packetsSinceReceipt >= RECEIPT_INTERVAL {
        waitingForNotification := true;
      }
    }

    method SendValidate()
      modifies this
      ensures View() == old(View()).SendValidate()
    {
      WriteChar(ctrlHandle, [OP_VALIDATE_FW], true);
      waitingForNotification := true;
    }

    method SendActivate()
      modifies this
      ensures View() == old(View()).SendActivate()
    {
      WriteChar(ctrlHandle, [OP_ACTIVATE_RESET], true);
      state := COMPLETE;
    }

    method Process()
      modifies this
      ensures View() == old(View()).Step(Input.Process)
    {
      if state == SENDING_FIRMWARE && !waitingForNotification {
        SendFirmwareChunks();
      }
    }

    method OnNotify(handle: nat, data: seq<byte>)
      modifies this
      ensures View() == old(View()).Step(Notify(handle, data))
    {
      if state == IDLE || state == COMPLETE || state == FAILED { return; }
      if handle == ctrlHandle {
        HandleNotification(data);
      }
    }

    method OnWriteStatus(ok: bool)
      modifies this
      ensures View() == old(View()).Step(WriteStatus(ok))
    {
      if state == IDLE || state == COMPLETE || state == FAILED { return; }
      if !ok {
        Fail();
      }
    }

    method OnDisconnect()
      modifies this
      ensures View() == old(View()).Step(Disconnect)
    {
      if state == IDLE || state == COMPLETE || state == FAILED { return; }
      Fail();
    }

    method HandleNotification(data: seq<byte>)
      modifies this
      ensures View() == old(View()).HandleNotification(data)
    {
      if |data| < 1 { return; }
      waitingForNotification := false;
      assert View() == old(View()).(waiting := false);
      if data[0] == OP_RESPONSE && |data| >= 3 {
        HandleResponse(data[1], data[2]);
      } else if data[0] == OP_PKT_RECEIPT_NOTIF && |data| >= 5 {
        HandleReceipt();
      }
    }

    method HandleResponse(reqOp: byte, result: byte)
      modifies this
      ensures View() == old(View()).HandleResponse(reqOp, result)
    {
      if result != RESULT_SUCCESS {
        Fail();
        return;
      }
      if reqOp == OP_START_DFU {
        state := SENDING_INIT;
        SendInitPacket();
      } else if reqOp == OP_INIT_DFU_PARAMS {
        BeginTransfer();
      } else if reqOp == OP_RECEIVE_FW {
        state := VALIDATING;
        SendValidate();
      } else if reqOp == OP_VALIDATE_FW {
        state := ACTIVATING;
        SendActivate();
      }
    }

    method BeginTransfer()
      modifies this
      ensures View() == old(View()).BeginTransfer()
    {
      state := SENDING_FIRMWARE;
      bytesSent, packetsSinceReceipt := 0, 0;
      chunks, receipts := [], 0;
      WriteChar(ctrlHandle, [OP_PKT_RECEIPT_REQ, RECEIPT_INTERVAL % 256, RECEIPT_INTERVAL / 256], true);
      WriteChar(ctrlHandle, [OP_RECEIVE_FW], true);
      SendFirmwareChunks();
    }

    method HandleReceipt()
      modifies this
      ensures View() == old(View()).HandleReceipt()
    {
      packetsSinceReceipt := 0;
      receipts := receipts + 1;
      assert View() == old(View()).(window := 0, receipts := old(receipts) + 1);
      SendFirmwareChunks();
    }

    method Reset()
      modifies this
      ensures View() == old(View()).ResetAll()
    {
      state := IDLE;
      binData, datData := [], [];
    }
  }
}
