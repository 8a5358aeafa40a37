/**
  The firmware transfer as a protocol: the client of `DfuClients`, a conformant Legacy DFU watch, and one
  in-order channel each way. Whole-run safety, freedom from deadlock, and a bound on every run.
 */
module DfuProtocol {
  import opened Bytes
  import opened DfuClients

  datatype Phase =
    | AwaitStart | AwaitSizes | AwaitInitBegin | AwaitInitData | AwaitReceive | Receiving
    | AwaitValidate | AwaitActivate | Rebooting
    | Refused    // the watch answered with an error code
    | Violated   // the peer broke the protocol

  function Response(op: byte, ok: bool): seq<byte>
  {
    [OP_RESPONSE, op, if ok then RESULT_SUCCESS else 6]
  }

  function Receipt(received: nat): seq<byte> { [OP_PKT_RECEIPT_NOTIF] + Le32(Wrap(received)) }

  /** The watch. `alsoLast`: whether it sends a receipt even for the packet that completes the image. */
  datatype Watch = Watch(
    ctrl: nat, pkt: nat, alsoLast: bool,
    phase: Phase, announced: nat, init: seq<byte>, interval: nat, packets: nat, received: seq<byte>)
  {
    function Answer(op: byte, ok: bool, next: Phase): (Watch, seq<seq<byte>>)
    {
      (this.(phase := if ok then next else Refused), [Response(op, ok)])
    }

    function Violation(): (Watch, seq<seq<byte>>) { (this.(phase := Violated), []) }

    function TakePacket(data: seq<byte>, ok: bool): (Watch, seq<seq<byte>>)
    {
      var w := this.(received := received + data, packets := packets + 1);
      var complete := |w.received| == announced;
      var due := interval > 0 && w.packets % interval == 0 && (!complete || alsoLast);
      var receipt := if due then [Receipt(|w.received|)] else [];
      if |w.received| > announced then this.Violation()
      else if complete then
        var (next, answer) := w.Answer(OP_RECEIVE_FW, ok, AwaitValidate);
        (next, receipt + answer)
      else (w, receipt)
    }

    /** Takes one write; `ok` is the verdict if this write is one the watch answers. */
    function Take(m: Write, ok: bool): (Watch, seq<seq<byte>>)
    {
      if phase.AwaitStart? && m.handle == ctrl && m.data == [OP_START_DFU, IMAGE_TYPE_APP] then
        (this.(phase := AwaitSizes), [])
      else if phase.AwaitSizes? && m.handle == pkt && |m.data| == 12 then
        this.(announced := FromLe32(m.data[8..12])).Answer(OP_START_DFU, ok, AwaitInitBegin)
      else if phase.AwaitInitBegin? && m.handle == ctrl && m.data == [OP_INIT_DFU_PARAMS, 0x00] then
        (this.(phase := AwaitInitData, init := []), [])
      else if phase.AwaitInitData? && m.handle == pkt then
        (this.(init := init + m.data), [])
      else if phase.AwaitInitData? && m.handle == ctrl && m.data == [OP_INIT_DFU_PARAMS, 0x01] then
        this.Answer(OP_INIT_DFU_PARAMS, ok, AwaitReceive)
      else if phase.AwaitReceive? && m.handle == ctrl && |m.data| == 3 && m.data[0] == OP_PKT_RECEIPT_REQ then
        (this.(interval := m.data[1] as nat + 256 * (m.data[2] as nat)), [])
      else if phase.AwaitReceive? && m.handle == ctrl && m.data == [OP_RECEIVE_FW] then
        (this.(phase := Receiving, packets := 0, received := []), [])
      else if phase.Receiving? && m.handle == pkt then
        this.TakePacket(m.data, ok)
      else if phase.AwaitValidate? && m.handle == ctrl && m.data == [OP_VALIDATE_FW] then
        this.Answer(OP_VALIDATE_FW, ok, AwaitActivate)
      else if phase.AwaitActivate? && m.handle == ctrl && m.data == [OP_ACTIVATE_RESET] then
        (this.(phase := Rebooting), [])
      else this.Violation()
    }
  }

  datatype Action = Deliver(ok: bool) | Hear | Tick

  /** Client, watch, writes under way to the watch, notifications under way to the client. */
  datatype Sys = Sys(c: Client, w: Watch, up: seq<Write>, down: seq<seq<byte>>)
  {
    function J(): Job { JobOf(c) }

    predicate Enabled(a: Action) { (a.Deliver? ==> up != []) && (a.Hear? ==> down != []) }

    function ClientMoves(d: Client): Sys
    {
      this.(c := d, up := up + if |c.writes| <= |d.writes| then d.writes[|c.writes|..] else [])
    }

    function Step(a: Action): Sys
      requires Enabled(a)
    {
      match a
      case Deliver(ok) =>
        var (next, notes) := w.Take(up[0], ok);
        this.(w := next, up := up[1..], down := down + notes)
      case Hear => this.(down := down[1..]).ClientMoves(c.Step(Notify(c.ctrl, down[0])))
      case Tick => this.ClientMoves(c.Step(Process))
    }

    predicate Runs(acts: seq<Action>)
      decreases |acts|
    {
      acts == [] || (Enabled(acts[0]) && Step(acts[0]).Runs(acts[1..]))
    }

    function Exec(acts: seq<Action>): Sys
      requires Runs(acts)
      decreases |acts|
    {
      if acts == [] then this else Step(acts[0]).Exec(acts[1..])
    }

    /** Nothing is under way and the client will not move by itself: the run cannot go on. */
    predicate Stuck() { up == [] && down == [] && Step(Tick) == this }
  }

  /** Both downloads succeeded and both DFU handles were found; the client has just sent START. */
  function Opening(bin: seq<byte>, dat: seq<byte>, ctrl: nat, pkt: nat, alsoLast: bool): Sys
  {
    var c := Fresh.Step(Start(bin, dat)).Step(Discovered(ctrl, pkt));
    Sys(c, Watch(ctrl, pkt, alsoLast, AwaitStart, 0, [], 0, 0, []), c.writes, [])
  }

  ghost predicate Usable(bin: seq<byte>, dat: seq<byte>, ctrl: nat, pkt: nat)
  {
    0 < |bin| < WORD && 0 < |dat| && ctrl != 0 && pkt != 0 && ctrl != pkt
  }

  // ---------------------------------------------------------------- the transcript

  /** What an update is about: the image, the init packet and the two handles. */
  datatype Job = Job(bin: seq<byte>, dat: seq<byte>, ctrl: nat, pkt: nat)

  function JobOf(c: Client): Job { Job(c.bin, c.dat, c.ctrl, c.pkt) }

  function StartPart(j: Job): seq<Write>
  {
    [Write(j.ctrl, [OP_START_DFU, IMAGE_TYPE_APP], true),
     Write(j.pkt, [0, 0, 0, 0, 0, 0, 0, 0] + Le32(Wrap(|j.bin|)), false)]
  }

  function InitPart(j: Job): seq<Write>
  {
    [Write(j.ctrl, [OP_INIT_DFU_PARAMS, 0x00], true),
     Write(j.pkt, j.dat, false),
     Write(j.ctrl, [OP_INIT_DFU_PARAMS, 0x01], true)]
  }

  function ReceivePart(j: Job): seq<Write>
  {
    [Write(j.ctrl, [OP_PKT_RECEIPT_REQ, 10, 0], true), Write(j.ctrl, [OP_RECEIVE_FW], true)]
  }

  /** The packets carrying pieces lo..hi-1 of the image. */
  function Packets(j: Job, lo: nat, hi: nat): seq<Write>
    requires lo <= hi
  {
    seq(hi - lo, i requires 0 <= i < hi - lo => Write(j.pkt, Chunk(j.bin, lo + i), false))
  }

  function ValidatePart(j: Job): seq<Write> { [Write(j.ctrl, [OP_VALIDATE_FW], true)] }

  function ActivatePart(j: Job): seq<Write> { [Write(j.ctrl, [OP_ACTIVATE_RESET], true)] }

  function Header(j: Job): seq<Write> { StartPart(j) + InitPart(j) + ReceivePart(j) }

  /** What a whole successful update writes: each command once, in order, the image in between. */
  function Transcript(j: Job): seq<Write>
  {
    Header(j) + Packets(j, 0, ChunkCount(|j.bin|)) + ValidatePart(j) + ActivatePart(j)
  }

  // ---------------------------------------------------------------- the invariant, phase by phase

  ghost predicate Setup(s: Sys)
  {
    && Usable(s.c.bin, s.c.dat, s.c.ctrl, s.c.pkt)
    && s.w.ctrl == s.c.ctrl && s.w.pkt == s.c.pkt
  }

  ghost predicate Starting(s: Sys)
    requires Setup(s)
  {
    && s.c.state.STARTING? && s.c.writes == StartPart(s.J()) && s.w.interval == 0
    && (|| (s.w.phase.AwaitStart? && s.up == StartPart(s.J()) && s.down == [])
        || (s.w.phase.AwaitSizes? && s.up == StartPart(s.J())[1..] && s.down == [])
        || (s.w.phase.AwaitInitBegin? && s.w.announced == |s.c.bin| && s.up == [] && s.down == [Response(OP_START_DFU, true)])
        || (s.w.phase.Refused? && s.up == [] && s.down == [Response(OP_START_DFU, false)]))
  }

  ghost predicate Initing(s: Sys)
    requires Setup(s)
  {
    && s.c.state.SENDING_INIT? && s.c.writes == StartPart(s.J()) + InitPart(s.J())
    && s.w.interval == 0 && s.w.announced == |s.c.bin|
    && (|| (s.w.phase.AwaitInitBegin? && s.up == InitPart(s.J()) && s.down == [])
        || (s.w.phase.AwaitInitData? && s.w.init == [] && s.up == InitPart(s.J())[1..] && s.down == [])
        || (s.w.phase.AwaitInitData? && s.w.init == s.c.dat && s.up == InitPart(s.J())[2..] && s.down == [])
        || (s.w.phase.AwaitReceive? && s.w.init == s.c.dat && s.up == [] && s.down == [Response(OP_INIT_DFU_PARAMS, true)])
        || (s.w.phase.Refused? && s.up == [] && s.down == [Response(OP_INIT_DFU_PARAMS, false)]))
  }

  /** Pieces the client has sent once it has handled k receipts: a full window beyond what they cover. */
  function Reach(n: nat, k: nat): nat { Min(RECEIPT_INTERVAL * (k + 1), ChunkCount(n)) }

  ghost predicate Window(s: Sys)
    requires Setup(s)
  {
    var n, k, q := |s.c.bin|, s.c.receipts, |s.c.chunks|;
    && s.c.state.SENDING_FIRMWARE? && s.c.waiting && Transfer(s.c)
    && RECEIPT_INTERVAL * k <= ChunkCount(n) && q == Reach(n, k) && s.c.window == q - RECEIPT_INTERVAL * k
    && s.c.writes == Header(s.J()) + Packets(s.J(), 0, q)
    && s.w.announced == n && s.w.init == s.c.dat
  }

  ghost predicate Sending(s: Sys)
    requires Setup(s)
  {
    var k, q := s.c.receipts, |s.c.chunks|;
    && Window(s)
    && (|| (s.w.phase.AwaitReceive? && s.w.interval == 0 && k == 0
            && s.up == ReceivePart(s.J()) + Packets(s.J(), 0, q) && s.down == [])
        || (s.w.phase.AwaitReceive? && s.w.interval == RECEIPT_INTERVAL && k == 0
            && s.up == ReceivePart(s.J())[1..] + Packets(s.J(), 0, q) && s.down == [])
        || Streaming(s)
        || Received(s, true) || Received(s, false))
  }

  ghost predicate Streaming(s: Sys)
    requires Setup(s)
  {
    var n, k, q, r := |s.c.bin|, s.c.receipts, |s.c.chunks|, s.w.packets;
    && s.w.phase.Receiving? && s.w.interval == RECEIPT_INTERVAL
    && RECEIPT_INTERVAL * k <= r <= q && r < ChunkCount(n)
    && s.w.received == s.c.bin[..Covered(n, r)]
    && s.up == Packets(s.J(), r, q)
    && s.down == if r == RECEIPT_INTERVAL * (k + 1) then [Receipt(Covered(n, r))] else []
  }

  ghost predicate Received(s: Sys, ok: bool)
    requires Setup(s)
  {
    var n, k, q := |s.c.bin|, s.c.receipts, |s.c.chunks|;
    && s.w.phase == (if ok then AwaitValidate else Refused)
    && q == ChunkCount(n) && s.w.received == s.c.bin && s.up == []
    && s.down == (if s.w.alsoLast && q == RECEIPT_INTERVAL * (k + 1) then [Receipt(n)] else [])
                 + [Response(OP_RECEIVE_FW, ok)]
  }

  ghost predicate Whole(s: Sys)
    requires Setup(s)
  {
    && RECEIPT_INTERVAL * s.c.receipts <= ChunkCount(|s.c.bin|)
    && s.w.announced == |s.c.bin| && s.w.init == s.c.dat && s.w.received == s.c.bin
  }

  ghost predicate Validating(s: Sys)
    requires Setup(s)
  {
    && s.c.state.VALIDATING? && Whole(s)
    && s.c.writes == Header(s.J()) + Packets(s.J(), 0, ChunkCount(|s.c.bin|)) + ValidatePart(s.J())
    && (|| (s.w.phase.AwaitValidate? && s.up == ValidatePart(s.J()) && s.down == [])
        || (s.w.phase.AwaitActivate? && s.up == [] && s.down == [Response(OP_VALIDATE_FW, true)])
        || (s.w.phase.Refused? && s.up == [] && s.down == [Response(OP_VALIDATE_FW, false)]))
  }

  ghost predicate Done(s: Sys)
    requires Setup(s)
  {
    && s.c.state.COMPLETE? && Whole(s) && s.down == []
    && s.c.writes == Transcript(s.J())
    && (|| (s.w.phase.AwaitActivate? && s.up == ActivatePart(s.J()))
        || (s.w.phase.Rebooting? && s.up == []))
  }

  ghost predicate Aborted(s: Sys)
    requires Setup(s)
  {
    && s.c.state.FAILED? && s.w.phase.Refused? && s.up == [] && s.down == []
    && s.c.writes <= Transcript(s.J())
  }

  ghost predicate Inv(s: Sys)
  {
    Setup(s) && (Starting(s) || Initing(s) || Sending(s) || Validating(s) || Done(s) || Aborted(s))
  }

  // ---------------------------------------------------------------- the termination measure

  /** Notifications the client has handled so far. */
  function Heard(c: Client): nat
  {
    match c.state
    case SENDING_INIT => 1
    case SENDING_FIRMWARE => 2 + c.receipts
    case VALIDATING => 3 + c.receipts
    case COMPLETE => 4 + c.receipts
    case _ => 0
  }

  /** An upper bound on the messages of a whole run on an n-byte image. */
  function Budget(n: nat): nat { ChunkCount(n) + ChunkCount(n) / RECEIPT_INTERVAL + 14 }

  /** Writes still to be delivered plus notifications still to be handled, over-counting receipts by at most one. */
  function Measure(s: Sys): int
  {
    if s.c.state.FAILED? then 0
    else Budget(|s.c.bin|) - (|s.c.writes| - |s.up|) - Heard(s.c)
  }

  // ---------------------------------------------------------------- client lemmas

  /** Where a drain stops: at the end of the image or of the window. */
  function Target(c: Client): nat
    requires c.window <= RECEIPT_INTERVAL
  {
    Min(|c.chunks| + RECEIPT_INTERVAL - c.window, ChunkCount(|c.bin|))
  }

  /** The client after sending the pieces up to q'. */
  function Drained(c: Client, q': nat): Client
    requires |c.chunks| <= q'
  {
    c.(sent := Covered(|c.bin|, q'), window := c.window + q' - |c.chunks|, waiting := true,
       chunks := Chunks(c.bin, 0, q'), writes := c.writes + Packets(JobOf(c), |c.chunks|, q'))
  }

  lemma PacketsHead(j: Job, lo: nat, hi: nat)
    requires lo < hi
    ensures Packets(j, lo, hi) == [Write(j.pkt, Chunk(j.bin, lo), false)] + Packets(j, lo + 1, hi)
  {
  }

  lemma DrainedStep(c: Client)
    requires Transfer(c) && c.sent < |c.bin| && c.window < RECEIPT_INTERVAL
    ensures var d := c.SendChunk();
            && Transfer(d)
            && |c.chunks| < |d.chunks| <= Target(d) == Target(c)
            && Drained(d, Target(d)) == Drained(c, Target(c))
  {
    PacketsHead(JobOf(c), |c.chunks|, Target(c));
  }

  lemma {:induction false} DrainSends(c: Client)
    requires Transfer(c)
    ensures |c.chunks| <= Target(c) && c.Drain() == Drained(c, Target(c))
    decreases |c.bin| - c.sent
  {
    if c.sent < |c.bin| && c.window < RECEIPT_INTERVAL {
      DrainedStep(c);
      DrainSends(c.SendChunk());
    }
  }

  lemma PacketsSplit(j: Job, lo: nat, mid: nat, hi: nat)
    requires lo <= mid <= hi
    ensures Packets(j, lo, mid) + Packets(j, mid, hi) == Packets(j, lo, hi)
  {
  }

  // ---------------------------------------------------------------- steps

  lemma TickIsIdle(s: Sys)
    requires Inv(s)
    ensures s.Step(Tick) == s
  {
    assert s.up + s.c.writes[|s.c.writes|..] == s.up;
  }

  lemma DeliverStarting(s: Sys, ok: bool)
    requires Setup(s) && Starting(s) && s.up != []
    ensures Setup(s.Step(Deliver(ok))) && Starting(s.Step(Deliver(ok)))
    ensures !ok || !s.Step(Deliver(ok)).w.phase.Refused?
  {
    if s.w.phase.AwaitSizes? {
      var m := s.up[0];
      assert m.data[8..12] == Le32(|s.c.bin|);
      Le32RoundTrip(|s.c.bin|);
    }
  }

  lemma DeliverIniting(s: Sys, ok: bool)
    requires Setup(s) && Initing(s) && s.up != []
    ensures Setup(s.Step(Deliver(ok))) && Initing(s.Step(Deliver(ok)))
    ensures !ok || !s.Step(Deliver(ok)).w.phase.Refused?
  {
    assert [] + s.c.dat == s.c.dat;
  }

  /** The watch on piece r of the image, when it holds exactly the pieces before it. */
  lemma WatchTakesPiece(w: Watch, j: Job, ok: bool)
    requires w.phase.Receiving? && w.pkt == j.pkt && w.interval == RECEIPT_INTERVAL && w.announced == |j.bin|
    requires w.packets < ChunkCount(|j.bin|) && w.received == j.bin[..Covered(|j.bin|, w.packets)]
    ensures var r, n := w.packets + 1, |j.bin|;
            var last := r == ChunkCount(n);
            var receipt := if r % RECEIPT_INTERVAL == 0 && (!last || w.alsoLast) then [Receipt(Covered(n, r))] else [];
            w.Take(Write(j.pkt, Chunk(j.bin, w.packets), false), ok)
              == (w.(phase := if !last then Receiving else if ok then AwaitValidate else Refused,
                     packets := r, received := j.bin[..Covered(n, r)]),
                  receipt + if last then [Response(OP_RECEIVE_FW, ok)] else [])
  {
    var r, n := w.packets + 1, |j.bin|;
    var m := Write(j.pkt, Chunk(j.bin, w.packets), false);
    assert w.received + m.data == j.bin[..Covered(n, r)];
    assert w.Take(m, ok) == w.TakePacket(m.data, ok);
    if r < ChunkCount(n) {
      var receipt := if r % RECEIPT_INTERVAL == 0 then [Receipt(Covered(n, r))] else [];
      assert w.TakePacket(m.data, ok).1 == receipt;
      assert receipt + [] == receipt;
    }
  }

  lemma DeliverPacket(s: Sys, ok: bool)
    requires Setup(s) && Window(s) && Streaming(s) && s.up != []
    ensures Setup(s.Step(Deliver(ok))) && Sending(s.Step(Deliver(ok)))
    ensures !ok || !s.Step(Deliver(ok)).w.phase.Refused?
  {
    var t := s.Step(Deliver(ok));
    PacketTaken(s, ok);
    assert Window(t);
    if s.w.packets + 1 == ChunkCount(|s.c.bin|) {
      assert s.c.bin[..|s.c.bin|] == s.c.bin;
      assert Received(t, ok);
    } else {
      assert Streaming(t);
    }
  }

  lemma DueExactly(k: nat, r: nat)
    requires RECEIPT_INTERVAL * k < r <= RECEIPT_INTERVAL * (k + 1)
    ensures r % RECEIPT_INTERVAL == 0 <==> r == RECEIPT_INTERVAL * (k + 1)
  {
  }

  /** What taking a packet leaves under way: one packet less, and nothing was on its way back. */
  lemma PacketLeaves(s: Sys, ok: bool)
    requires Setup(s) && Window(s) && Streaming(s) && s.up != []
    ensures var q, r, t := |s.c.chunks|, s.w.packets + 1, s.Step(Deliver(ok));
            && r <= q && t.c == s.c && t.up == Packets(s.J(), r, q) && s.down == []
            && t.w == s.w.Take(Write(s.J().pkt, Chunk(s.J().bin, r - 1), false), ok).0
            && t.down == s.w.Take(Write(s.J().pkt, Chunk(s.J().bin, r - 1), false), ok).1
  {
    var q, r := |s.c.chunks|, s.w.packets + 1;
    PacketsHead(s.J(), r - 1, q);
    assert s.up[0] == Write(s.J().pkt, Chunk(s.J().bin, r - 1), false);
    assert s.up[1..] == Packets(s.J(), r, q);
    assert s.down == [];
    assert s.Step(Deliver(ok)).down == [] + s.w.Take(s.up[0], ok).1;
  }

  /** What taking a packet changes: the watch holds one more piece and answers if it is due. */
  lemma PacketTaken(s: Sys, ok: bool)
    requires Setup(s) && Window(s) && Streaming(s) && s.up != []
    ensures var n, k, q, r := |s.c.bin|, s.c.receipts, |s.c.chunks|, s.w.packets + 1;
            var t := s.Step(Deliver(ok));
            var last := r == ChunkCount(n);
            && r <= q && t.c == s.c && t.up == Packets(s.J(), r, q)
            && t.w == s.w.(phase := if !last then Receiving else if ok then AwaitValidate else Refused,
                           packets := r, received := s.c.bin[..Covered(n, r)])
            && t.down == (if r == RECEIPT_INTERVAL * (k + 1) && (!last || s.w.alsoLast)
                          then [Receipt(Covered(n, r))] else [])
                         + (if last then [Response(OP_RECEIVE_FW, ok)] else [])
            && (last ==> Covered(n, r) == n && q == r && t.up == [])
            && s.down == []
  {
    PacketLeaves(s, ok);
    var k, r := s.c.receipts, s.w.packets + 1;
    DueExactly(k, r);
    WatchTakesPiece(s.w, s.J(), ok);
  }

  lemma DeliverSending(s: Sys, ok: bool)
    requires Setup(s) && Sending(s) && s.up != []
    ensures Setup(s.Step(Deliver(ok))) && Sending(s.Step(Deliver(ok)))
    ensures !ok || !s.Step(Deliver(ok)).w.phase.Refused?
  {
    var t := s.Step(Deliver(ok));
    if s.w.phase.AwaitReceive? {
      if s.w.interval == 0 {
        assert t.up == ReceivePart(s.J())[1..] + Packets(s.J(), 0, |s.c.chunks|);
      } else {
        assert t.up == Packets(s.J(), 0, |s.c.chunks|);
        assert s.c.bin[..0] == [];
        assert Streaming(t);
      }
    } else {
      DeliverPacket(s, ok);
    }
  }

  lemma HearStarting(s: Sys)
    requires Setup(s) && Starting(s) && s.down != []
    ensures var t := s.Step(Hear); Setup(t) && (Initing(t) || (s.w.phase.Refused? && Aborted(t)))
  {
    var t := s.Step(Hear);
    if !s.w.phase.Refused? {
      assert t.up == InitPart(t.J());
    } else {
      assert t.c.writes[|s.c.writes|..] == [];
      PrefixOfTranscript(t.J(), StartPart(t.J()), InitPart(t.J()) + ReceivePart(t.J())
                         + Packets(t.J(), 0, ChunkCount(|t.c.bin|)) + ValidatePart(t.J()) + ActivatePart(t.J()));
    }
  }

  lemma PrefixOfTranscript(j: Job, head: seq<Write>, rest: seq<Write>)
    requires Transcript(j) == head + rest
    ensures head <= Transcript(j)
  {
  }

  /** Handling a notification leaves the writes already under way in place. */
  lemma HearAppends(s: Sys)
    requires s.down != []
    ensures var t := s.Step(Hear);
            t.J() == s.J() && s.c.writes <= t.c.writes && |t.c.writes| - |t.up| == |s.c.writes| - |s.up|
  {
    HandlingAppends(s.c, s.down[0]);
  }

  lemma {:induction false} DrainAppends(c: Client)
    ensures c.writes <= c.Drain().writes && JobOf(c.Drain()) == JobOf(c)
    decreases |c.bin| - c.sent
  {
    if c.sent < |c.bin| && c.window < RECEIPT_INTERVAL { DrainAppends(c.SendChunk()); }
  }

  lemma HandlingAppends(c: Client, note: seq<byte>)
    ensures c.writes <= c.HandleNotification(note).writes && JobOf(c.HandleNotification(note)) == JobOf(c)
  {
    if |note| >= 1 {
      var d := c.(waiting := false);
      DrainAppends(d.(window := 0, receipts := d.receipts + 1));
      DrainAppends(d.Rewound().(state := SENDING_FIRMWARE)
                    .Put(d.ctrl, [OP_PKT_RECEIPT_REQ, RECEIPT_INTERVAL % 256, RECEIPT_INTERVAL / 256], true)
                    .Put(d.ctrl, [OP_RECEIVE_FW], true));
    }
  }

  /** The client on the INIT acknowledgement: rewind, two commands, and a first window of packets. */
  lemma ClientBegins(c: Client)
    requires c.state.SENDING_INIT?
    ensures var q := Reach(|c.bin|, 0);
            c.Step(Notify(c.ctrl, Response(OP_INIT_DFU_PARAMS, true)))
              == c.(state := SENDING_FIRMWARE, waiting := true, sent := Covered(|c.bin|, q), window := q,
                    chunks := Chunks(c.bin, 0, q), receipts := 0,
                    writes := c.writes + ReceivePart(JobOf(c)) + Packets(JobOf(c), 0, q))
  {
    var d := c.(waiting := false).Rewound().(state := SENDING_FIRMWARE)
              .Put(c.ctrl, [OP_PKT_RECEIPT_REQ, 10, 0], true).Put(c.ctrl, [OP_RECEIVE_FW], true);
    assert d.writes == c.writes + ReceivePart(JobOf(c));
    DrainSends(d);
  }

  lemma HearInitRefused(s: Sys)
    requires Setup(s) && Initing(s) && s.down != [] && s.w.phase.Refused?
    ensures var t := s.Step(Hear); Setup(t) && Aborted(t)
  {
    var t, j := s.Step(Hear), s.J();
    assert t.c.writes[|s.c.writes|..] == [];
    PrefixOfTranscript(j, StartPart(j) + InitPart(j), ReceivePart(j)
                       + Packets(j, 0, ChunkCount(|j.bin|)) + ValidatePart(j) + ActivatePart(j));
  }

  lemma HearInitAccepted(s: Sys)
    requires Setup(s) && Initing(s) && s.down != [] && !s.w.phase.Refused?
    ensures var t := s.Step(Hear); Setup(t) && Sending(t) && t.c.receipts == 0
  {
    var t, j := s.Step(Hear), s.J();
    ClientBegins(s.c);
    var q := Reach(|j.bin|, 0);
    assert t.up == ReceivePart(j) + Packets(j, 0, q);
    assert t.c.writes == Header(j) + Packets(j, 0, q);
  }

  lemma HearIniting(s: Sys)
    requires Setup(s) && Initing(s) && s.down != []
    ensures var t := s.Step(Hear);
            && Setup(t)
            && ((Sending(t) && t.c.receipts == 0) || (s.w.phase.Refused? && Aborted(t)))
  {
    if s.w.phase.Refused? { HearInitRefused(s); } else { HearInitAccepted(s); }
  }

  /** The client on a receipt that ends a full window: the next window of packets, if any are left. */
  lemma ClientContinues(c: Client, note: seq<byte>)
    requires c.state.SENDING_FIRMWARE? && Transfer(c) && |note| == 5 && note[0] == OP_PKT_RECEIPT_NOTIF
    ensures var q, q' := |c.chunks|, Min(|c.chunks| + RECEIPT_INTERVAL, ChunkCount(|c.bin|));
            && q <= q'
            && c.Step(Notify(c.ctrl, note))
                 == c.(waiting := true, sent := Covered(|c.bin|, q'), window := q' - q, receipts := c.receipts + 1,
                       chunks := Chunks(c.bin, 0, q'), writes := c.writes + Packets(JobOf(c), q, q'))
  {
    DrainSends(c.(waiting := false, window := 0, receipts := c.receipts + 1));
  }

  lemma HearReceipt(s: Sys)
    requires Setup(s) && Window(s) && s.down != [] && |s.down[0]| == 5 && s.down[0][0] == OP_PKT_RECEIPT_NOTIF
    requires |s.c.chunks| == RECEIPT_INTERVAL * (s.c.receipts + 1)
    ensures var t := s.Step(Hear);
            && t.down == s.down[1..] && t.w == s.w && t.J() == s.J()
            && Setup(t) && Window(t) && t.c.receipts == s.c.receipts + 1
            && |s.c.chunks| <= |t.c.chunks| && t.up == s.up + Packets(s.J(), |s.c.chunks|, |t.c.chunks|)
  {
    var q, q' := |s.c.chunks|, Min(|s.c.chunks| + RECEIPT_INTERVAL, ChunkCount(|s.c.bin|));
    ClientContinues(s.c, s.down[0]);
    PacketsSplit(s.J(), 0, q, q');
    assert s.Step(Hear).c.writes[|s.c.writes|..] == Packets(s.J(), q, q');
    assert s.Step(Hear).c.writes == Header(s.J()) + Packets(s.J(), 0, q');
  }

  lemma HearStreaming(s: Sys)
    requires Setup(s) && Window(s) && Streaming(s) && s.down != []
    ensures var t := s.Step(Hear);
            Setup(t) && Window(t) && Streaming(t) && t.c.receipts == s.c.receipts + 1
  {
    HearReceipt(s);
  }

  lemma HearReceived(s: Sys, ok: bool)
    requires Setup(s) && Window(s) && Received(s, ok)
    ensures var t := s.Step(Hear);
            && Setup(t)
            && (|| (Window(t) && Received(t, ok) && t.c.receipts == s.c.receipts + 1)
                || (ok && Validating(t) && t.c.receipts == s.c.receipts)
                || (!ok && Aborted(t)))
  {
    var t := s.Step(Hear);
    var j := s.J();
    if s.down[0][0] == OP_PKT_RECEIPT_NOTIF {
      HearReceipt(s);
      assert t.up == [];
    } else if ok {
      assert t.up == ValidatePart(j);
    } else {
      assert t.c.writes[|s.c.writes|..] == [];
      PrefixOfTranscript(j, Header(j) + Packets(j, 0, ChunkCount(|j.bin|)), ValidatePart(j) + ActivatePart(j));
    }
  }

  lemma HearSending(s: Sys)
    requires Setup(s) && Sending(s) && s.down != []
    ensures var t := s.Step(Hear);
            && Setup(t)
            && (|| (Sending(t) && t.c.receipts == s.c.receipts + 1)
                || (Validating(t) && t.c.receipts == s.c.receipts)
                || (s.w.phase.Refused? && Aborted(t)))
  {
    if Streaming(s) { HearStreaming(s); }
    else { HearReceived(s, !s.w.phase.Refused?); }
  }

  lemma HearValidating(s: Sys)
    requires Setup(s) && Validating(s) && s.down != []
    ensures var t := s.Step(Hear); Setup(t) && (Done(t) || (s.w.phase.Refused? && Aborted(t)))
    ensures s.Step(Hear).c.receipts == s.c.receipts
  {
    var t := s.Step(Hear);
    if s.w.phase.Refused? {
      assert t.c.writes[|s.c.writes|..] == [];
    } else {
      assert t.up == ActivatePart(t.J());
    }
  }

  lemma MeasureIsNat(s: Sys)
    requires Inv(s)
    ensures Measure(s) >= 0
    ensures !s.c.state.FAILED? ==> Measure(s) > 0
  {
  }

  lemma DeliverEnding(s: Sys, ok: bool)
    requires Setup(s) && (Validating(s) || Done(s)) && s.up != []
    ensures var t := s.Step(Deliver(ok));
            Setup(t) && (Validating(t) || Done(t)) && (t.w.phase.Refused? ==> !ok)
  {
  }

  lemma DeliverKeeps(s: Sys, ok: bool)
    requires Inv(s) && s.up != []
    ensures var t := s.Step(Deliver(ok));
            && Inv(t) && t.c == s.c && |t.up| == |s.up| - 1
            && (t.w.phase.Refused? ==> !ok)
  {
    if Starting(s) { DeliverStarting(s, ok); }
    else if Initing(s) { DeliverIniting(s, ok); }
    else if Sending(s) { DeliverSending(s, ok); }
    else { DeliverEnding(s, ok); }
  }

  lemma HearKeeps(s: Sys)
    requires Inv(s) && s.down != []
    ensures var t := s.Step(Hear);
            && Inv(t) && t.w == s.w && t.J() == s.J()
            && (|| (Heard(t.c) == Heard(s.c) + 1 && |t.c.writes| - |t.up| == |s.c.writes| - |s.up| && !t.c.state.FAILED?)
                || t.c.state.FAILED?)
            && !s.c.state.FAILED?
  {
    if Starting(s) { HearStarting(s); }
    else if Initing(s) { HearIniting(s); }
    else if Sending(s) { HearSending(s); }
    else if Validating(s) { HearValidating(s); }
    HearAppends(s);
  }

  /** Every step keeps the invariant and every message moved uses up the budget. */
  lemma StepKeeps(s: Sys, a: Action)
    requires Inv(s) && s.Enabled(a)
    ensures Inv(s.Step(a)) && s.Step(a).J() == s.J()
    ensures 0 <= Measure(s.Step(a)) <= Measure(s) - if a.Tick? then 0 else 1
    ensures s.Step(a).w.phase.Refused? ==> s.w.phase.Refused? || a == Deliver(false)
  {
    MeasureIsNat(s);
    match a
    case Tick => TickIsIdle(s);
    case Deliver(ok) => DeliverKeeps(s, ok); MeasureIsNat(s.Step(a));
    case Hear => HearKeeps(s); MeasureIsNat(s.Step(a));
  }

  lemma OpeningHolds(bin: seq<byte>, dat: seq<byte>, ctrl: nat, pkt: nat, alsoLast: bool)
    requires Usable(bin, dat, ctrl, pkt)
    ensures var s := Opening(bin, dat, ctrl, pkt, alsoLast);
            Inv(s) && s.c.bin == bin && s.c.dat == dat && Measure(s) == Budget(|bin|)
  {
    assert Opening(bin, dat, ctrl, pkt, alsoLast).c.writes == StartPart(Opening(bin, dat, ctrl, pkt, alsoLast).J());
  }

  // ---------------------------------------------------------------- whole runs

  /** Messages moved by a run: everything but clock ticks. */
  function Messages(acts: seq<Action>): nat
  {
    if acts == [] then 0 else (if acts[0].Tick? then 0 else 1) + Messages(acts[1..])
  }

  lemma {:induction false} RunKeeps(s: Sys, acts: seq<Action>)
    requires Inv(s) && s.Runs(acts)
    ensures Inv(s.Exec(acts)) && s.Exec(acts).J() == s.J()
    ensures 0 <= Measure(s.Exec(acts)) <= Measure(s) - Messages(acts)
    ensures s.Exec(acts).w.phase.Refused? ==> s.w.phase.Refused? || Deliver(false) in acts
    decreases |acts|
  {
    if acts == [] {
      MeasureIsNat(s);
    } else {
      StepKeeps(s, acts[0]);
      RunKeeps(s.Step(acts[0]), acts[1..]);
    }
  }

  /**
    Safety of every run: the watch never sees a protocol violation, what the client has written is always a
    prefix of the transcript, and once the client says COMPLETE the watch was announced exactly the image
    size, holds the init packet and exactly the image, and has validated it.
   */
  lemma RunIsSafe(bin: seq<byte>, dat: seq<byte>, ctrl: nat, pkt: nat, alsoLast: bool, acts: seq<Action>)
    requires Usable(bin, dat, ctrl, pkt) && Opening(bin, dat, ctrl, pkt, alsoLast).Runs(acts)
    ensures var s := Opening(bin, dat, ctrl, pkt, alsoLast).Exec(acts);
            && s.c.bin == bin && s.c.dat == dat
            && !s.w.phase.Violated?
            && s.c.writes <= Transcript(s.J())
            && (s.c.state.COMPLETE? ==>
                  && s.c.writes == Transcript(s.J())
                  && s.w.announced == |bin| && s.w.init == dat && s.w.received == bin
                  && (s.w.phase.AwaitActivate? || s.w.phase.Rebooting?))
            && (s.c.state.FAILED? ==> s.w.phase.Refused? && Deliver(false) in acts)
  {
    OpeningHolds(bin, dat, ctrl, pkt, alsoLast);
    RunKeeps(Opening(bin, dat, ctrl, pkt, alsoLast), acts);
    var s := Opening(bin, dat, ctrl, pkt, alsoLast).Exec(acts);
    WritesArePrefix(s);
  }

  lemma WritesArePrefix(s: Sys)
    requires Inv(s)
    ensures s.c.writes <= Transcript(s.J())
  {
    var n := ChunkCount(|s.c.bin|);
    var tail := Packets(s.J(), 0, n) + ValidatePart(s.J()) + ActivatePart(s.J());
    if Starting(s) {
      PrefixOfTranscript(s.J(), StartPart(s.J()), InitPart(s.J()) + ReceivePart(s.J()) + tail);
    } else if Initing(s) {
      PrefixOfTranscript(s.J(), StartPart(s.J()) + InitPart(s.J()), ReceivePart(s.J()) + tail);
    } else if Validating(s) {
      PrefixOfTranscript(s.J(), s.c.writes, ActivatePart(s.J()));
    }
  }

  /**
    No run deadlocks and every run ends: a run moves at most Budget(|bin|) messages, and one that cannot go on
    has either updated the watch or been refused by it. Without a refusal it has updated the watch.
   */
  lemma RunMakesProgress(bin: seq<byte>, dat: seq<byte>, ctrl: nat, pkt: nat, alsoLast: bool, acts: seq<Action>)
    requires Usable(bin, dat, ctrl, pkt) && Opening(bin, dat, ctrl, pkt, alsoLast).Runs(acts)
    ensures var s := Opening(bin, dat, ctrl, pkt, alsoLast).Exec(acts);
            && Messages(acts) <= Budget(|bin|)
            && (s.up == [] && s.down == [] <==> s.Stuck())
            && (s.Stuck() ==> (s.c.state.COMPLETE? && s.w.phase.Rebooting?) || (s.c.state.FAILED? && s.w.phase.Refused?))
            && (s.Stuck() && Deliver(false) !in acts ==> s.c.state.COMPLETE?)
  {
    OpeningHolds(bin, dat, ctrl, pkt, alsoLast);
    RunKeeps(Opening(bin, dat, ctrl, pkt, alsoLast), acts);
    QuietMeansOver(Opening(bin, dat, ctrl, pkt, alsoLast).Exec(acts));
  }

  /** With nothing under way the update is over one way or the other. */
  lemma QuietMeansOver(s: Sys)
    requires Inv(s)
    ensures s.up == [] && s.down == [] <==> s.Stuck()
    ensures s.Stuck() ==> (s.c.state.COMPLETE? && s.w.phase.Rebooting?) || (s.c.state.FAILED? && s.w.phase.Refused?)
  {
    TickIsIdle(s);
  }

  /** A receipt under way after k handled ones acknowledges exactly 200 * (k + 1) bytes, or the whole image. */
  lemma ReceiptsStayAligned(bin: seq<byte>, dat: seq<byte>, ctrl: nat, pkt: nat, alsoLast: bool, acts: seq<Action>)
    requires Usable(bin, dat, ctrl, pkt) && Opening(bin, dat, ctrl, pkt, alsoLast).Runs(acts)
    ensures var s := Opening(bin, dat, ctrl, pkt, alsoLast).Exec(acts);
            forall i :: 0 <= i < |s.down| && s.down[i] != [] && s.down[i][0] == OP_PKT_RECEIPT_NOTIF ==>
              && i == 0 && s.c.state.SENDING_FIRMWARE?
              && s.down[0] == Receipt(Min(CHUNK_SIZE * RECEIPT_INTERVAL * (s.c.receipts + 1), |bin|))
              && s.c.sent == |s.w.received| == Min(CHUNK_SIZE * RECEIPT_INTERVAL * (s.c.receipts + 1), |bin|)
  {
    OpeningHolds(bin, dat, ctrl, pkt, alsoLast);
    RunKeeps(Opening(bin, dat, ctrl, pkt, alsoLast), acts);
    var s := Opening(bin, dat, ctrl, pkt, alsoLast).Exec(acts);
    ReceiptIsAligned(s);
  }

  lemma ReceiptIsAligned(s: Sys)
    requires Inv(s)
    ensures forall i :: 0 <= i < |s.down| && s.down[i] != [] && s.down[i][0] == OP_PKT_RECEIPT_NOTIF ==>
              && i == 0 && s.c.state.SENDING_FIRMWARE?
              && s.down[0] == Receipt(Min(CHUNK_SIZE * RECEIPT_INTERVAL * (s.c.receipts + 1), |s.c.bin|))
              && s.c.sent == |s.w.received| == Min(CHUNK_SIZE * RECEIPT_INTERVAL * (s.c.receipts + 1), |s.c.bin|)
  {
    if Sending(s) && s.down != [] {
      assert s.c.sent == Covered(|s.c.bin|, Reach(|s.c.bin|, s.c.receipts));
    }
  }
}
