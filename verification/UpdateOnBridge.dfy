/**
  The firmware transfer inside the bridge: between the discovery that starts it and the loop() call that sees it ended or
  times it out, whatever else the bridge does, the update is a run of the client and watch of `DfuProtocol`.
 */
module UpdateOnBridge {
  import opened Bytes
  import opened DfuClients
  import opened Bridges
  import Supervision
  import P = DfuProtocol

  // ---------------------------------------------------------------- how bridge events move the client

  /** A session that has been started on the watch. */
  predicate Started(c: Client) { !c.Quiet() && !c.state.DOWNLOADING? && !c.state.CONNECTING? }

  /**
    Every bridge event moves a started session only by a tick, a notification or the time-out's reset, after which the same
    loop() call may begin another.
   */
  lemma EventMoves(b: Bridge, e: Event)
    requires Started(b.dfu)
    ensures var c := b.Step(e).dfu;
            match e
            case Loop(now, i) =>
              if b.TimedOut(now) then c == b.dfu.ResetAll() || (i.pair.Reply? && c == b.dfu.ResetAll().Begin(i.pair.bin, i.pair.dat))
              else c == b.dfu.Step(Process)
            case Notified(h, data) => c == b.dfu.Step(Notify(h, data))
            case _ => c == b.dfu
  {
    match e
    case Loop(now, i) => Supervision.ActiveLoop(b, now, i);
    case Discover(now, f, t) => DiscoverMovesNothing(b, now, f, t);
    case _ =>
  }

  lemma DiscoverMovesNothing(b: Bridge, now: word, f: Found, t: TimeWrite)
    requires !b.dfu.state.CONNECTING?
    ensures b.DiscoverServices(now, f, t).dfu == b.dfu
  {
  }

  // ---------------------------------------------------------------- earlier sessions leave only their writes

  /** The same client with earlier writes before its own. */
  function After(earlier: seq<Write>, c: Client): Client { c.(writes := earlier + c.writes) }

  lemma PutAfter(earlier: seq<Write>, c: Client, h: nat, data: seq<byte>, r: bool)
    ensures After(earlier, c).Put(h, data, r) == After(earlier, c.Put(h, data, r))
  {
    assert (earlier + c.writes) + [Write(h, data, r)] == earlier + (c.writes + [Write(h, data, r)]);
  }

  lemma {:induction false} DrainAfter(earlier: seq<Write>, c: Client)
    ensures After(earlier, c).Drain() == After(earlier, c.Drain())
    decreases |c.bin| - c.sent
  {
    if c.sent < |c.bin| && c.window < RECEIPT_INTERVAL {
      PutAfter(earlier, c, c.pkt, c.bin[c.sent..c.sent + Min(|c.bin| - c.sent, CHUNK_SIZE)], false);
      assert After(earlier, c).SendChunk() == After(earlier, c.SendChunk());
      DrainAfter(earlier, c.SendChunk());
    }
  }

  lemma ResponseAfter(earlier: seq<Write>, c: Client, op: byte, result: byte)
    ensures After(earlier, c).HandleResponse(op, result) == After(earlier, c.HandleResponse(op, result))
  {
    if result == RESULT_SUCCESS {
      if op == OP_START_DFU {
      } else if op == OP_INIT_DFU_PARAMS {
        TransferAfter(earlier, c);
      } else if op == OP_RECEIVE_FW {
        PutAfter(earlier, c.(state := VALIDATING), c.ctrl, [OP_VALIDATE_FW], true);
      } else if op == OP_VALIDATE_FW {
        PutAfter(earlier, c.(state := ACTIVATING), c.ctrl, [OP_ACTIVATE_RESET], true);
      }
    }
  }

  lemma TransferAfter(earlier: seq<Write>, c: Client)
    ensures After(earlier, c).BeginTransfer() == After(earlier, c.BeginTransfer())
  {
    var request := [OP_PKT_RECEIPT_REQ, RECEIPT_INTERVAL % 256, RECEIPT_INTERVAL / 256];
    var d := c.Rewound().(state := SENDING_FIRMWARE);
    PutAfter(earlier, d, c.ctrl, request, true);
    PutAfter(earlier, d.Put(c.ctrl, request, true), c.ctrl, [OP_RECEIVE_FW], true);
    DrainAfter(earlier, d.Put(c.ctrl, request, true).Put(c.ctrl, [OP_RECEIVE_FW], true));
  }

  lemma NotificationAfter(earlier: seq<Write>, c: Client, data: seq<byte>)
    ensures After(earlier, c).HandleNotification(data) == After(earlier, c.HandleNotification(data))
  {
    if |data| >= 1 {
      var d := c.(waiting := false);
      if data[0] == OP_RESPONSE && |data| >= 3 {
        ResponseAfter(earlier, d, data[1], data[2]);
      } else if data[0] == OP_PKT_RECEIPT_NOTIF && |data| >= 5 {
        DrainAfter(earlier, d.(window := 0, receipts := d.receipts + 1));
      }
    }
  }

  /** The client does not look at what it has written before. */
  lemma StepAfter(earlier: seq<Write>, c: Client, e: Input)
    requires e.Process? || e.Notify?
    ensures After(earlier, c).Step(e) == After(earlier, c.Step(e))
  {
    match e
    case Process => DrainAfter(earlier, c);
    case Notify(_, data) => NotificationAfter(earlier, c, data);
  }

  // ---------------------------------------------------------------- bridge and watch

  datatype Action =
    | Deliver(ok: bool)    // the watch takes the oldest write
    | Hear                 // the bridge handles the oldest notification
    | On(e: Event)         // any other event on the bridge

  datatype Sys = Sys(b: Bridge, w: P.Watch, up: seq<Write>, down: seq<seq<byte>>)
  {
    /** The link holds, and no loop() call has seen the session ended or timed it out. */
    predicate Enabled(a: Action)
    {
      match a
      case Deliver(_) => up != []
      case Hear => down != []
      case On(e) =>
        && !e.Disconnected? && (e.Notified? ==> e.handle != b.dfu.ctrl)
        && (e.Loop? ==> b.DfuActive() && !b.TimedOut(e.now))
    }

    function Moved(c: Bridge): Sys
    {
      this.(b := c, up := up + if |b.dfu.writes| <= |c.dfu.writes| then c.dfu.writes[|b.dfu.writes|..] else [])
    }

    function Step(a: Action): Sys
      requires Enabled(a)
    {
      match a
      case Deliver(ok) =>
        var (next, notes) := w.Take(up[0], ok);
        this.(w := next, up := up[1..], down := down + notes)
      case Hear => this.(down := down[1..]).Moved(b.Step(Notified(b.dfu.ctrl, down[0])))
      case On(e) => Moved(b.Step(e))
    }

    predicate Runs(acts: seq<Action>)
      decreases |acts|
    {
      acts == [] || (Enabled(acts[0]) && Step(acts[0]).Runs(acts[1..]))
    }

    function Exec(acts: seq<Action>): Sys
      requires Runs(acts)
      decreases |acts|
    {
      if acts == [] then this else Step(acts[0]).Exec(acts[1..])
    }
  }

  /** What an action is to client and watch alone. */
  function Image(a: Action): seq<P.Action>
  {
    match a
    case Deliver(ok) => [P.Deliver(ok)]
    case Hear => [P.Hear]
    case On(e) => if e.Loop? then [P.Tick] else []
  }

  function Images(acts: seq<Action>): seq<P.Action>
  {
    if acts == [] then [] else Image(acts[0]) + Images(acts[1..])
  }

  ghost predicate Same(s: Sys, p: P.Sys, earlier: seq<Write>)
  {
    s.b.dfu == After(earlier, p.c) && s.w == p.w && s.up == p.up && s.down == p.down
  }

  /** A move of the client seen from both sides. */
  lemma MovedAlike(s: Sys, p: P.Sys, earlier: seq<Write>, c: Bridge, d: Client)
    requires Same(s, p, earlier) && c.dfu == After(earlier, d)
    ensures Same(s.Moved(c), p.ClientMoves(d), earlier)
  {
    if |p.c.writes| <= |d.writes| {
      assert (earlier + d.writes)[|earlier + p.c.writes|..] == d.writes[|p.c.writes|..];
    }
  }

  lemma HearAlike(s: Sys, p: P.Sys, earlier: seq<Write>)
    requires Same(s, p, earlier) && s.down != []
    ensures Same(s.Step(Hear), p.Step(P.Hear), earlier)
  {
    StepAfter(earlier, p.c, Notify(p.c.ctrl, p.down[0]));
    MovedAlike(s.(down := s.down[1..]), p.(down := p.down[1..]), earlier, s.b.Step(Notified(s.b.dfu.ctrl, s.down[0])),
               p.c.Step(Notify(p.c.ctrl, p.down[0])));
  }

  lemma TickAlike(s: Sys, p: P.Sys, earlier: seq<Write>, now: word, i: LoopInput)
    requires Same(s, p, earlier) && s.Enabled(On(Loop(now, i)))
    ensures Same(s.Step(On(Loop(now, i))), p.Step(P.Tick), earlier)
  {
    StepAfter(earlier, p.c, Process);
    MovedAlike(s, p, earlier, s.b.Step(Loop(now, i)), p.c.Step(Process));
  }

  lemma OtherEventsAlike(s: Sys, p: P.Sys, earlier: seq<Write>, e: Event)
    requires Same(s, p, earlier) && s.Enabled(On(e)) && !e.Loop? && !s.b.dfu.state.CONNECTING?
    ensures Same(s.Step(On(e)), p, earlier)
  {
    if e.Discover? { DiscoverMovesNothing(s.b, e.now, e.found, e.time); }
  }

  /** Every step of bridge and watch is a step of client and watch, or none. */
  lemma StepAlike(s: Sys, p: P.Sys, earlier: seq<Write>, a: Action)
    requires Same(s, p, earlier) && P.Inv(p) && s.Enabled(a)
    ensures if Image(a) == [] then Same(s.Step(a), p, earlier)
            else p.Enabled(Image(a)[0]) && Same(s.Step(a), p.Step(Image(a)[0]), earlier)
  {
    match a
    case Deliver(_) =>
    case Hear => HearAlike(s, p, earlier);
    case On(e) =>
      if e.Loop? { TickAlike(s, p, earlier, e.now, e.input); } else { OtherEventsAlike(s, p, earlier, e); }
  }

  lemma {:induction false} RunAlike(s: Sys, p: P.Sys, earlier: seq<Write>, acts: seq<Action>)
    requires Same(s, p, earlier) && P.Inv(p) && s.Runs(acts)
    ensures p.Runs(Images(acts)) && Same(s.Exec(acts), p.Exec(Images(acts)), earlier)
    decreases |acts|
  {
    if acts != [] {
      var image, rest := Image(acts[0]), Images(acts[1..]);
      StepAlike(s, p, earlier, acts[0]);
      if image == [] {
        RunAlike(s.Step(acts[0]), p, earlier, acts[1..]);
        assert [] + rest == rest;
      } else {
        P.StepKeeps(p, image[0]);
        RunAlike(s.Step(acts[0]), p.Step(image[0]), earlier, acts[1..]);
        assert (image + rest)[0] == image[0] && (image + rest)[1..] == rest;
      }
    }
  }

  // ---------------------------------------------------------------- a whole update

  /** The discovery that finds the DFU service while the client is CONNECTING. */
  function Opened(b: Bridge, now: word, f: Found, t: TimeWrite, alsoLast: bool): Sys
  {
    var c := b.DiscoverServices(now, f, t);
    Sys(c, P.Watch(f.ctrl, f.pkt, alsoLast, P.AwaitStart, 0, [], 0, 0, []),
        if |b.dfu.writes| <= |c.dfu.writes| then c.dfu.writes[|b.dfu.writes|..] else [], [])
  }

  /**
    An update on the bridge, after any number of earlier ones and among any other events that neither drop the link nor
    see the session ended or timed out: the watch sees no protocol violation; when the client is COMPLETE the watch was
    announced, holds and has validated exactly the image, and it is FAILED only if the watch refused. The run moves at most
    Budget messages, and once both channels are empty the update has been activated or refused.
   */
  lemma {:induction false} UpdateOnBridgeIsSafe(
      b: Bridge, prior: Client, bin: seq<byte>, dat: seq<byte>, now: word, f: Found, t: TimeWrite, alsoLast: bool,
      acts: seq<Action>)
    requires b.dfu == prior.Begin(bin, dat) && P.Usable(bin, dat, f.ctrl, f.pkt)
    requires Opened(b, now, f, t, alsoLast).Runs(acts)
    ensures var u := Opened(b, now, f, t, alsoLast).Exec(acts);
            && !u.w.phase.Violated? && P.Messages(Images(acts)) <= P.Budget(|bin|)
            && (u.b.dfu.state.COMPLETE? ==>
                  u.w.announced == |bin| && u.w.init == dat && u.w.received == bin
                  && (u.w.phase.AwaitActivate? || u.w.phase.Rebooting?))
            && (u.b.dfu.state.FAILED? ==> u.w.phase.Refused?)
            && (u.up == [] && u.down == [] ==>
                  (u.b.dfu.state.COMPLETE? && u.w.phase.Rebooting?) || (u.b.dfu.state.FAILED? && u.w.phase.Refused?))
  {
    var s, p := Opened(b, now, f, t, alsoLast), P.Opening(bin, dat, f.ctrl, f.pkt, alsoLast);
    P.OpeningHolds(bin, dat, f.ctrl, f.pkt, alsoLast);
    RunAlike(s, p, prior.writes, acts);
    P.RunIsSafe(bin, dat, f.ctrl, f.pkt, alsoLast, Images(acts));
    P.RunMakesProgress(bin, dat, f.ctrl, f.pkt, alsoLast, Images(acts));
  }
}
