/**
  The busy flag, by which the queue means to keep one command in flight: exactly when that fails, how many writes are
  outstanding at most, and when a flag left set jams the queue.
 */
module BusyFlag {
  import opened Bytes
  import opened WireFormat
  import opened Bridges
  import opened SyncProtocol
  import opened Runs
  import DfuClients
  import Supervision
  import Djb2

  function Flag(b: bool): nat { if b then 1 else 0 }

  // ---------------------------------------------------------------- what a step writes

  /** Writes on the link that are not queue commands. */
  function Others(air: seq<Out>): int { |air| - |Commands(air)| }

  /** Other writes, of time, alerts or firmware, that a step issues. */
  function Issued(s: Sys, a: Action): int
    requires s.Enabled(a)
  {
    if a.Handle? then Others(s.Step(a).b.air) - Others(s.b.air) else 0
  }

  function IssuedBy(s: Sys, acts: seq<Action>): int
    requires s.Runs(acts)
    decreases |acts|
  {
    if acts == [] then 0 else Issued(s, acts[0]) + IssuedBy(s.Step(acts[0]), acts[1..])
  }

  /** Between two states each command sent has set the busy flag, nothing has cleared it, and nothing has left the link. */
  ghost predicate SendsBusily(b: Bridge, c: Bridge)
  {
    && |Commands(c.air)| + Flag(b.busy) <= |Commands(b.air)| + Flag(c.busy)
    && Others(b.air) <= Others(c.air)
  }

  lemma QueueSendsBusily(b: Bridge, accepted: bool)
    ensures SendsBusily(b, b.ProcessQueue(accepted))
  {
    var c := b.ProcessQueue(accepted);
    if c.air != b.air {
      CommandsConcat(b.air, [Sent(b.queue[0], b.HandleFor(b.queue[0]))]);
    }
  }

  lemma PollSendsBusily(b: Bridge, now: word, p: Poll)
    ensures SendsBusily(b, b.PollIfDue(now, p))
  {
    Supervision.PollCommands(b, now, p);
    PollContinues(b, now, p);
  }

  lemma LoopSendsBusily(b: Bridge, now: word, i: LoopInput)
    ensures SendsBusily(b, b.LoopStep(now, i))
  {
    if b.DfuActive() && !b.TimedOut(now) {
      SuperviseContinues(b, now);
    } else {
      var b1 := b.PastSupervision(now).AfterDfu(now).EndGrace(now);
      EarlyContinues(b, now);
      var b2 := b1.ProcessQueue(i.accepted);
      QueueSendsBusily(b1, i.accepted);
      var b3 := b2.PollIfDue(now, i.poll);
      PollSendsBusily(b2, now, i.poll);
      var b4 := b3.RefreshWatch(now, i.time);
      RefreshContinues(b3, now, i.time);
      PairingContinues(b4, i.pair);
    }
  }

  lemma DiscoverSendsBusily(b: Bridge, now: word, f: Found, t: TimeWrite)
    ensures SendsBusily(b, b.DiscoverServices(now, f, t))
  {
    var c := b.(h := b.h.Updated(f.h));
    if b.dfu.state.CONNECTING? && f.ctrl != 0 && f.pkt != 0 {
      FirmwareContinues(c, b.dfu.ServicesDiscovered(f.ctrl, f.pkt));
    } else {
      SyncTimeContinues(c, now, t);
    }
  }

  lemma EventSendsBusily(b: Bridge, e: Event)
    requires !e.Disconnected? && !e.WriteDone?
    ensures SendsBusily(b, b.Step(e))
  {
    match e
    case Loop(now, i) => LoopSendsBusily(b, now, i);
    case Discover(now, f, t) => DiscoverSendsBusily(b, now, f, t);
    case Notified(h, data) =>
      FirmwareContinues(b, b.dfu.Step(DfuClients.Notify(h, data)));
    case Open(_) =>
  }

  // ---------------------------------------------------------------- one command in flight

  /** At most one command in flight, and the flag set while there is one. */
  ghost predicate Serial(b: Bridge) { |Commands(b.air)| <= Flag(b.busy) }

  /** A completion is handled while a command is in flight; the command's own comes after it has left the link. */
  predicate Premature(s: Sys, a: Action) { a == Handle(WriteDone) && Commands(s.b.air) != [] }

  predicate Orderly(s: Sys, acts: seq<Action>)
    requires s.Runs(acts)
    decreases |acts|
  {
    acts == [] || (!Premature(s, acts[0]) && Orderly(s.Step(acts[0]), acts[1..]))
  }

  lemma StepIsSerial(s: Sys, a: Action)
    requires s.Enabled(a) && Serial(s.b) && !Premature(s, a)
    ensures Serial(s.Step(a).b)
  {
    match a
    case Handle(e) => if !e.WriteDone? { EventSendsBusily(s.b, e); }
    case _ =>
  }

  /** Every run without a premature completion keeps at most one command in flight. */
  lemma {:induction false} OrderlyIsSerial(s: Sys, acts: seq<Action>)
    requires s.Runs(acts) && Serial(s.b) && Orderly(s, acts)
    ensures Serial(s.Exec(acts).b)
    decreases |acts|
  {
    if acts != [] {
      StepIsSerial(s, acts[0]);
      OrderlyIsSerial(s.Step(acts[0]), acts[1..]);
    }
  }

  /** What the next loop() needs to send a queued command once the busy flag is clear. */
  ghost predicate Ready(b: Bridge)
  {
    b.queue != [] && b.HandleFor(b.queue[0]) != 0 && b.connected && b.discovered && b.dfu.state.IDLE?
  }

  /**
    And every premature completion on a live link with a command queued breaks it: the next loop() call puts one more
    command on the link.
   */
  lemma PrematureOverlaps(s: Sys, now: word, i: LoopInput)
    requires s.acks > 0 && Premature(s, Handle(WriteDone)) && Ready(s.b) && i.accepted
    ensures var t := s.Step(Handle(WriteDone)).Step(Handle(Loop(now, i)));
            Commands(t.b.air) == Commands(s.b.air) + [s.b.queue[0]] && |Commands(t.b.air)| >= 2 && !Serial(t.b)
  {
    LoopSendsHead(s.b.OnWriteDone(), now, i);
  }

  lemma LoopSendsHead(b: Bridge, now: word, i: LoopInput)
    requires Ready(b) && !b.busy && i.accepted
    ensures Commands(b.LoopStep(now, i).air) == Commands(b.air) + [b.queue[0]]
  {
    var o := Supervision.ClearOfDfu(b, now);
    assert o.air == b.air && o.queue == b.queue && o.HandleFor(b.queue[0]) != 0 && !o.busy;
    var q := o.ProcessQueue(true);
    CommandsConcat(b.air, [Sent(b.queue[0], b.HandleFor(b.queue[0]))]);
    assert Commands(q.air) == Commands(b.air) + [b.queue[0]];
    Supervision.PollCommands(q, now, i.poll);
    var p := q.PollIfDue(now, i.poll);
    RefreshContinues(p, now, i.time);
    var r := p.RefreshWatch(now, i.time);
    Supervision.SameCommands(p, r);
    PairingContinues(r, i.pair);
    Supervision.SameCommands(r, r.CheckPairing(i.pair));
  }

  /** A poll, a connection, a discovery whose time write is accepted, and one loop() call; then the watch carries out the time. */
  function ToPremature(rs: seq<ApiReminder>): seq<Action>
  {
    [Handle(Loop(20000, LoopInput(true, Polled(rs, []), TimeWrite(false, false), NotPolled))), Handle(Open(1))]
    + [Handle(Discover(1, Found(Handles(1, 2, 3, 4, 5), 0, 0), TimeWrite(true, true))), QuietLoop(true), Carry]
  }

  lemma BootPolls(rs: seq<ApiReminder>, watch: WatchMap)
    ensures var s0 := Boot(60000, 1, watch);
            s0.Step(ToPremature(rs)[0]) == s0.(b := s0.b.(lastPoll := 20000, api := rs))
  {
    var b := Booted(60000, 1);
    var c := b.(lastPoll := 20000, api := rs);
    assert Wrap(20000 - b.lastPoll) == 69999;
    assert b.PollIfDue(20000, Polled(rs, [])) == c;
  }

  lemma LinkWithQueue(b: Bridge)
    requires b.queue != [] && b.HandleFor(b.queue[0]) != 0 && b.connected && b.discovered && b.dfu.state.IDLE? && !b.busy
    requires b.air == [Time]
    ensures var c := b.LoopStep(1, LoopInput(true, PollFailed, TimeWrite(false, false), NotPolled));
            c.air == [Time, Sent(b.queue[0], b.HandleFor(b.queue[0]))] && c.busy && c.dfu == b.dfu && c.connected && c.discovered && c.h == b.h
            && (!b.postDfu && Wrap(1 - b.lastPoll) <= b.pollInterval ==> c.queue == b.queue[1..])
  {
    var o := Supervision.ClearOfDfu(b, 1);
    assert o.air == b.air && o.queue == b.queue && o.HandleFor(b.queue[0]) != 0 && !o.busy;
    var q := o.ProcessQueue(true);
    assert q.air == [Time, Sent(b.queue[0], b.HandleFor(b.queue[0]))];
  }

  lemma ReachesPremature(rs: seq<ApiReminder>, watch: WatchMap) returns (s: Sys)
    requires Snapshot(rs) != [] && Djb2.Hash(Encode(Snapshot(rs))) != 0
    ensures Leads(Boot(60000, 1, watch), ToPremature(rs), s)
    ensures s.acks == 1 && s.b.air == [Sent(DeleteAll, 2)] && Ready(s.b)
  {
    var s0 := Boot(60000, 1, watch);
    var acts := ToPremature(rs);
    BootPolls(rs, watch);
    var s2 := s0.Step(acts[0]).Step(acts[1]);
    LeadsTwo(s0, acts[0], acts[1]);
    s := FromLinkToPremature(s2, rs);
    LeadsOn(s0, [acts[0], acts[1]], s2, [acts[2], acts[3], Carry], s);
  }

  lemma FromLinkToPremature(t: Sys, rs: seq<ApiReminder>) returns (s: Sys)
    requires Snapshot(rs) != [] && Djb2.Hash(Encode(Snapshot(rs))) != 0
    requires t.b == Booted(60000, 1).(lastPoll := 20000, api := rs).OnOpen(1) && t.acks == 0
    ensures Leads(t, ToPremature(rs)[2..], s)
    ensures s.acks == 1 && s.b.air == [Sent(DeleteAll, 2)] && Ready(s.b)
  {
    var acts := ToPremature(rs);
    var s3 := t.Step(acts[2]);
    assert s3.b.queue[0] == DeleteAll && s3.b.queue[1..] == Uploads(Snapshot(rs));
    LinkWithQueue(s3.b);
    var s4 := s3.Step(acts[3]);
    s := s4.Step(Carry);
    LeadsThree(t, acts[2], acts[3], Carry);
    assert acts[2..] == [acts[2], acts[3], Carry];
    assert s.b.queue[0].kind == WRITE_REMINDER;
  }

  /**
    It does happen: after a connection with a time write, whatever non-empty snapshot was polled, two commands are in
    flight two loop() calls later.
   */
  lemma TwoInFlight(rs: seq<ApiReminder>, watch: WatchMap)
    requires Snapshot(rs) != [] && Djb2.Hash(Encode(Snapshot(rs))) != 0
    ensures var acts := ToPremature(rs) + [Handle(WriteDone), QuietLoop(true)];
            && Boot(60000, 1, watch).Runs(acts)
            && |Commands(Boot(60000, 1, watch).Exec(acts).b.air)| == 2
  {
    var s := ReachesPremature(rs, watch);
    var u := s.Step(Handle(WriteDone)).Step(QuietLoop(true));
    PrematureOverlaps(s, 1, LoopInput(true, PollFailed, TimeWrite(false, false), NotPolled));
    LeadsTwo(s, Handle(WriteDone), QuietLoop(true));
    LeadsOn(Boot(60000, 1, watch), ToPremature(rs), s, [Handle(WriteDone), QuietLoop(true)], u);
    LeadsTo(Boot(60000, 1, watch), ToPremature(rs) + [Handle(WriteDone), QuietLoop(true)], u);
  }

  /** One such snapshot: a single daily reminder at 08:31. */
  lemma OneReminderOverlaps()
    ensures var rs := [Djb2.Retimed(Djb2.Unlucky(), 8, 31)];
            Snapshot(rs) == rs && Djb2.Hash(Encode(rs)) != 0
  {
    var rs := [Djb2.Unlucky()];
    Djb2.HashCanBeTheSentinel();
    Djb2.TimeEditCollision(rs, 0, 8, 31);
    assert rs[0 := Djb2.Retimed(rs[0], 8, 31)] == [Djb2.Retimed(Djb2.Unlucky(), 8, 31)];
    var es := [Djb2.Retimed(Djb2.Unlucky(), 8, 31)];
    assert es[..0] == [];
    assert Enabled(es) == [] + [es[0]] == es;
    assert es[..1] == es;
  }

  // ---------------------------------------------------------------- writes outstanding

  /** Writes that are on the link or whose completion has not been handled, beyond the one the busy flag stands for. */
  function Excess(s: Sys): int { |s.b.air| + s.acks - Flag(s.b.busy) }

  lemma StepExcess(s: Sys, a: Action)
    requires s.Enabled(a)
    ensures Excess(s.Step(a)) <= if a.Drop? then Excess(s) else Excess(s) + Issued(s, a)
  {
    match a
    case Handle(e) => if !e.WriteDone? { EventSendsBusily(s.b, e); }
    case _ =>
  }

  lemma {:induction false} RunExcess(s: Sys, acts: seq<Action>)
    requires s.Runs(acts)
    ensures Excess(s.Exec(acts)) <= Excess(s) + IssuedBy(s, acts)
    decreases |acts|
  {
    if acts != [] {
      StepExcess(s, acts[0]);
      RunExcess(s.Step(acts[0]), acts[1..]);
    }
  }

  /**
    From boot at most one write is outstanding beyond the time, alert and firmware writes issued, and at most one
    command is in flight if no completion was premature.
   */
  lemma OneCommandAtATime(pollInterval: word, now: word, watch: WatchMap, acts: seq<Action>)
    requires Boot(pollInterval, now, watch).Runs(acts)
    ensures var s0 := Boot(pollInterval, now, watch);
            var s := s0.Exec(acts);
            && |s.b.air| + s.acks <= 1 + IssuedBy(s0, acts)
            && (Orderly(s0, acts) ==> |Commands(s.b.air)| <= 1)
  {
    var s0 := Boot(pollInterval, now, watch);
    RunExcess(s0, acts);
    if Orderly(s0, acts) { OrderlyIsSerial(s0, acts); }
  }

  /** A drop starts the count afresh, but for the completions that survive it. */
  lemma OutstandingSinceDrop(s: Sys, kept: nat, acts: seq<Action>)
    requires s.Enabled(Drop(kept)) && s.Step(Drop(kept)).Runs(acts)
    ensures var t := s.Step(Drop(kept)); var u := t.Exec(acts);
            |u.b.air| + u.acks <= 1 + kept + IssuedBy(t, acts)
  {
    RunExcess(s.Step(Drop(kept)), acts);
  }

  // ---------------------------------------------------------------- the jam

  /** Busy with nothing outstanding, so no completion will come. */
  ghost predicate Jammed(s: Sys) { s.b.busy && s.b.air == [] && s.acks == 0 }

  lemma IssuedIsNat(s: Sys, a: Action)
    requires s.Enabled(a)
    ensures Issued(s, a) >= 0
  {
    match a
    case Handle(e) => if !e.WriteDone? { EventSendsBusily(s.b, e); }
    case _ =>
  }

  lemma {:induction false} IssuedByIsNat(s: Sys, acts: seq<Action>)
    requires s.Runs(acts)
    ensures IssuedBy(s, acts) >= 0
    decreases |acts|
  {
    if acts != [] {
      IssuedIsNat(s, acts[0]);
      IssuedByIsNat(s.Step(acts[0]), acts[1..]);
    }
  }

  lemma JamStays(s: Sys, a: Action)
    requires Jammed(s) && s.Enabled(a) && Issued(s, a) == 0
    ensures Jammed(s.Step(a)) && s.Step(a).watch == s.watch
  {
    match a
    case Handle(e) => EventSendsBusily(s.b, e);
    case Drop(_) =>
  }

  /**
    A jammed bridge stays jammed over every run of loops, polls, drops and reconnects that issues no time, alert or
    firmware write: no command reaches the watch.
   */
  lemma {:induction false} JamIsForever(s: Sys, acts: seq<Action>)
    requires Jammed(s) && s.Runs(acts) && IssuedBy(s, acts) == 0
    ensures Jammed(s.Exec(acts)) && s.Exec(acts).watch == s.watch
    decreases |acts|
  {
    if acts != [] {
      IssuedIsNat(s, acts[0]);
      IssuedByIsNat(s.Step(acts[0]), acts[1..]);
      JamStays(s, acts[0]);
      JamIsForever(s.Step(acts[0]), acts[1..]);
    }
  }

  /** So a jam that has ended was ended by such a write: the flag cleared, or the watch changed, only after one. */
  lemma {:induction false} JamEndsOnlyByOthers(s: Sys, acts: seq<Action>)
    requires Jammed(s) && s.Runs(acts) && (!s.Exec(acts).b.busy || s.Exec(acts).watch != s.watch)
    ensures IssuedBy(s, acts) > 0
  {
    IssuedByIsNat(s, acts);
    if IssuedBy(s, acts) == 0 { JamIsForever(s, acts); }
  }

  /** And any such write does end it, once it completes. */
  lemma OtherWriteEndsJam(s: Sys, a: Action)
    requires Jammed(s) && s.Enabled(a) && Issued(s, a) > 0
    ensures var t := s.Step(a);
            t.Enabled(Carry) && t.Step(Carry).Enabled(Handle(WriteDone)) && !t.Step(Carry).Step(Handle(WriteDone)).b.busy
  {
    EventSendsBusily(s.b, a.e);
  }

  /** The jam is reached from boot by one drop with a command in flight. */
  lemma JamIsReachable()
    ensures Boot(60000, 1, Stale).Runs(Connecting())
    ensures var s := Boot(60000, 1, Stale).Exec(Connecting()).Step(QuietLoop(true));
            s.Enabled(Drop(0)) && Jammed(s.Step(Drop(0)))
  {
    ConnectedState();
    var s := Boot(60000, 1, Stale).Exec(Connecting());
    assert s.Step(QuietLoop(true)).b.air == [Sent(DeleteAll, 2)];
  }
}
