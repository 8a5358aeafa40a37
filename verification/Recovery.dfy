/**
  Recovery of reminder sync: how a lost link is made good on the next one, in every order of events.
 */
module Recovery {
  import opened Bytes
  import opened WireFormat
  import opened Bridges
  import opened SyncProtocol
  import opened Runs
  import opened BusyFlag
  import Supervision
  import Djb2

  // ---------------------------------------------------------------- draining the queue

  /** One loop() call, and the completion of the write it makes. */
  datatype Turn = Turn(now: word, poll: Poll, time: TimeWrite)
  {
    /** The poll fails, or finds the same reminders and no notification. */
    predicate SameServer(api: seq<ApiReminder>) { poll.Polled? ==> poll == Polled(api, []) }

    function Actions(): seq<Action>
    {
      [Handle(Loop(now, LoopInput(true, poll, time, NotPolled))), Carry, Handle(WriteDone)]
    }
  }

  function Turns(ts: seq<Turn>): seq<Action>
  {
    if ts == [] then [] else ts[0].Actions() + Turns(ts[1..])
  }

  /** Nothing outstanding, nothing in the way, and the queue is for the current snapshot. */
  ghost predicate Clear(s: Sys)
  {
    && s.b.connected && s.b.discovered && !s.b.busy && s.b.air == [] && s.acks == 0 && s.b.pending == 0
    && s.b.dfu.state.IDLE? && !s.b.postDfu
    && s.b.lastHash == Djb2.Hash(Encode(Snapshot(s.b.api)))
    && (forall c :: c in s.b.queue ==> s.b.HandleFor(c) != 0)
  }

  lemma LoopSends(b: Bridge, t: Turn)
    requires Clear(Sys(b, map[], 0)) && b.queue != [] && t.SameServer(b.api)
    ensures var c := b.LoopStep(t.now, LoopInput(true, t.poll, t.time, NotPolled));
            c == b.(dfuStart := 0, busy := true, air := [Sent(b.queue[0], b.HandleFor(b.queue[0]))], queue := b.queue[1..], lastPoll := c.lastPoll)
  {
    var o := b.(dfuStart := 0);
    assert b.PastSupervision(t.now).AfterDfu(t.now).EndGrace(t.now) == o;
    assert b.queue[0] in b.queue;
    var q := o.ProcessQueue(true);
    assert q == o.(busy := true, air := [Sent(b.queue[0], b.HandleFor(b.queue[0]))], queue := b.queue[1..]);
    var p := q.PollIfDue(t.now, t.poll);
    assert p.RefreshWatch(t.now, t.time) == p;
  }

  /** The state after a turn. */
  function AfterTurn(s: Sys, lastPoll: word): Sys
    requires s.b.queue != []
  {
    Sys(s.b.(dfuStart := 0, busy := false, air := [], queue := s.b.queue[1..], lastPoll := lastPoll),
        Apply(s.b.queue[0], s.watch), 0)
  }

  lemma SentStaysClear(s: Sys, lastPoll: word)
    requires Clear(s) && s.b.queue != []
    ensures Clear(AfterTurn(s, lastPoll))
  {
    assert forall c :: c in s.b.queue[1..] ==> c in s.b.queue;
  }

  lemma TurnSends(s: Sys, t: Turn) returns (u: Sys)
    requires Clear(s) && s.b.queue != [] && t.SameServer(s.b.api)
    ensures Leads(s, t.Actions(), u) && u == AfterTurn(s, u.b.lastPoll)
  {
    LoopSends(s.b, t);
    var loop := Handle(Loop(t.now, LoopInput(true, t.poll, t.time, NotPolled)));
    u := s.Step(loop).Step(Carry).Step(Handle(WriteDone));
    LeadsThree(s, loop, Carry, Handle(WriteDone));
  }

  /** As many turns as there are queued commands empty the queue onto the watch, in order. */
  lemma {:induction false} QueueDrains(s: Sys, ts: seq<Turn>) returns (u: Sys)
    requires Clear(s) && |ts| == |s.b.queue| && forall t :: t in ts ==> t.SameServer(s.b.api)
    ensures Leads(s, Turns(ts), u)
    ensures Clear(u) && u.b.queue == [] && u.b.api == s.b.api && u.watch == Replay(s.b.queue, s.watch)
    decreases |ts|
  {
    if ts == [] {
      NoActions(s);
      return s;
    }
    assert ts[0] in ts;
    var t := TurnSends(s, ts[0]);
    SentStaysClear(s, t.b.lastPoll);
    u := QueueDrains(t, ts[1..]);
    LeadsOn(s, ts[0].Actions(), t, Turns(ts[1..]), u);
  }

  // ---------------------------------------------------------------- after a lost link

  /**
    The link drops, `kept` completions surviving it, and comes back with services `f`; the discovery writes the time
    if the watch has the service, the local time is valid and the stack accepts the write.
   */
  function Reconnect(kept: nat, now: word, f: Found, tw: TimeWrite): seq<Action>
  {
    [Drop(kept), Handle(Open(now))] + [Handle(Discover(now, f, tw))]
  }

  /** The reminder service is found whole. */
  predicate AllFound(f: Found) { f.h.upload != 0 && f.h.delete != 0 && f.h.sync != 0 }

  predicate TimeWritten(f: Found, tw: TimeWrite) { f.h.cts != 0 && tw.valid && tw.accepted }

  /** A drop that is noticed or has nothing to lose track of, with no update running or just ended. */
  predicate Recovers(b: Bridge)
  {
    (b.queue != [] || b.pending > 0 || b.lastHash == 0) && b.dfu.state.IDLE? && !b.postDfu
  }

  /** Connected anew, with nothing known, nothing cached and nothing to do; the busy flag is as it was. */
  ghost predicate Blank(b: Bridge)
  {
    && b.connected && b.lastHash == 0 && b.queue == [] && b.air == [] && b.pending == 0
    && b.h == NoHandles && b.dfu.state.IDLE? && !b.postDfu
  }

  lemma Rediscover(b: Bridge, now: word, f: Found, tw: TimeWrite)
    requires Blank(b) && AllFound(f)
    ensures var c, rs := b.DiscoverServices(now, f, tw), Snapshot(b.api);
            && c.connected && c.discovered && c.busy == b.busy && c.api == b.api && c.h == f.h
            && c.dfu == b.dfu && !c.postDfu && c.lastHash == Djb2.Hash(Encode(rs))
            && c.air == (if TimeWritten(f, tw) then [Time] else []) && c.pending as nat == |c.air|
            && (if Djb2.Hash(Encode(rs)) != 0 then c.queue == [DeleteAll] + Uploads(rs) && c.synced == rs else c.queue == [])
  {
    assert b.h.Updated(f.h) == f.h;
    var d := b.(h := f.h);
    TimeOnBlank(d, now, tw);
    ServiceQueues(d.SyncTime(now, tw));
  }

  lemma TimeOnBlank(b: Bridge, now: word, tw: TimeWrite)
    requires b.air == [] && b.pending == 0
    ensures var c := b.SyncTime(now, tw); var wrote := b.h.cts != 0 && tw.valid && tw.accepted;
            c == b.(pending := if wrote then 1 else 0, air := if wrote then [Time] else [],
                    lastWatchPoll := if wrote then now else b.lastWatchPoll)
  {
  }

  lemma ServiceQueues(b: Bridge)
    requires b.h.upload != 0 && b.h.delete != 0 && b.h.sync != 0 && b.dfu.state.IDLE? && !b.postDfu
    requires b.lastHash == 0 && b.queue == []
    ensures var c, rs := b.UseReminderService(), Snapshot(b.api);
            c == b.(discovered := true, lastPoll := 0, lastHash := Djb2.Hash(Encode(rs)),
                    queue := if Djb2.Hash(Encode(rs)) != 0 then [DeleteAll] + Uploads(rs) else [],
                    synced := if Djb2.Hash(Encode(rs)) != 0 then rs else b.synced)
  {
    var e := b.(discovered := true);
    assert e.queue + e.Batch(Snapshot(e.api)) == [DeleteAll] + Uploads(Snapshot(b.api));
  }

  /** What a reconnect leaves: the whole snapshot queued anew, exactly if its hash is not 0, and the busy flag as it was. */
  ghost predicate Requeued(t: Sys, s: Sys, kept: nat, f: Found, tw: TimeWrite)
  {
    && t.acks == kept && t.watch == s.watch && t.b.api == s.b.api && t.b.busy == s.b.busy
    && t.b.connected && t.b.discovered && t.b.h == f.h && t.b.dfu.state.IDLE? && !t.b.postDfu
    && t.b.air == (if TimeWritten(f, tw) then [Time] else []) && t.b.pending as nat == |t.b.air|
    && t.b.lastHash == Djb2.Hash(Encode(Snapshot(s.b.api)))
    && (if t.b.lastHash != 0
        then t.b.queue == [DeleteAll] + Uploads(Snapshot(s.b.api)) && t.b.synced == Snapshot(s.b.api)
        else t.b.queue == [])
  }

  lemma ReconnectQueues(s: Sys, kept: nat, now: word, f: Found, tw: TimeWrite) returns (t: Sys)
    requires Recovers(s.b) && AllFound(f) && s.Enabled(Drop(kept))
    ensures Leads(s, Reconnect(kept, now, f, tw), t) && Requeued(t, s, kept, f, tw)
  {
    var u := s.Step(Drop(kept)).Step(Handle(Open(now)));
    assert u == Sys(s.b.OnDisconnect().OnOpen(now), s.watch, kept);
    Rediscover(u.b, now, f, tw);
    t := u.Step(Handle(Discover(now, f, tw)));
    LeadsTwo(s, Drop(kept), Handle(Open(now)));
    LeadsOn(s, [Drop(kept), Handle(Open(now))], u, [Handle(Discover(now, f, tw))], t);
  }

  /**
    One schedule to the end: if the time is written after the reconnect, its completion and one turn per command make
    the watch hold exactly the current snapshot's records.
   */
  lemma {:induction false} TurnsHeal(s: Sys, now: word, f: Found, ts: seq<Turn>)
    requires Recovers(s.b) && AllFound(f) && f.h.cts != 0
    requires Djb2.Hash(Encode(Snapshot(s.b.api))) != 0
    requires |ts| == 1 + |Snapshot(s.b.api)| && forall t :: t in ts ==> t.SameServer(s.b.api)
    ensures var acts := (Reconnect(0, now, f, TimeWrite(true, true)) + [Carry, Handle(WriteDone)]) + Turns(ts);
            s.Runs(acts) && Healed(s.Exec(acts), s.b.api)
  {
    var back := Reconnect(0, now, f, TimeWrite(true, true));
    var t := ReconnectQueues(s, 0, now, f, TimeWrite(true, true));
    LeadsTwo(t, Carry, Handle(WriteDone));
    var v := t.Step(Carry).Step(Handle(WriteDone));
    assert v.b == t.b.(air := [], busy := false, pending := 0) && v.acks == 0;
    assert forall c :: c in t.b.queue ==> c == DeleteAll || c.kind.WRITE_REMINDER?;
    var u := BatchHeals(v, ts);
    LeadsOn(s, back, t, [Carry, Handle(WriteDone)], v);
    LeadsOn(s, back + [Carry, Handle(WriteDone)], v, Turns(ts), u);
    LeadsTo(s, (back + [Carry, Handle(WriteDone)]) + Turns(ts), u);
  }

  lemma BatchHeals(s: Sys, ts: seq<Turn>) returns (u: Sys)
    requires Clear(s) && s.b.queue == [DeleteAll] + Uploads(Snapshot(s.b.api))
    requires |ts| == |s.b.queue| && forall t :: t in ts ==> t.SameServer(s.b.api)
    ensures Leads(s, Turns(ts), u) && Healed(u, s.b.api)
  {
    u := QueueDrains(s, ts);
    BatchReplaces([], Snapshot(s.b.api), s.watch);
    assert [] + s.b.queue == s.b.queue;
  }

  /** The watch shows the snapshot, nothing is left to send and the sync check finds nothing to do. */
  ghost predicate Healed(u: Sys, api: seq<ApiReminder>)
  {
    u.b.api == api && u.watch == RecordsOf(Snapshot(api)) && Work(u.b) == [] && !u.b.SyncDue()
  }

  // ---------------------------------------------------------------- in every order

  /** A live link, an update client at rest, and the current snapshot cached, agreed and not jammed. */
  ghost predicate Steady(s: Sys)
  {
    && Safe(s.b, s.acks) && Agrees(s.b, s.watch)
    && s.b.connected && s.b.discovered && s.b.dfu.state.IDLE? && !s.b.postDfu
    && s.b.synced == Snapshot(s.b.api) && s.b.lastHash == Djb2.Hash(Encode(Snapshot(s.b.api))) != 0
    && (s.b.busy ==> s.b.air != [] || s.acks > 0)
  }

  /** Steps that lose no command and neither change the server's reminders nor start an update. */
  predicate Calm(s: Sys, a: Action)
  {
    match a
    case Handle(e) =>
      (e.Loop? ==>
         && e.input.accepted && (e.input.poll.Polled? ==> e.input.poll.reminders == s.b.api)
         && !(e.input.pair.Reply? && e.input.pair.dfuRequested))
    case Carry => true
    case Lose => s.b.air != [] && !s.b.air[0].Sent?
    case Drop(_) => false
  }

  predicate RunsCalmly(s: Sys, acts: seq<Action>)
    decreases |acts|
  {
    acts == [] || (s.Enabled(acts[0]) && Calm(s, acts[0]) && RunsCalmly(s.Step(acts[0]), acts[1..]))
  }

  /** Moves still to be made: a queued write is sent, carried out and completed. */
  function Remaining(s: Sys): nat { 3 * |s.b.queue| + 2 * |s.b.air| + s.acks }

  /** What a step moves: a command sent, a write carried out, a completion handled. */
  function Moves(s: Sys, a: Action): int
    requires s.Enabled(a)
  {
    match a
    case Handle(e) => if e.WriteDone? then 1 else |s.b.queue| - |s.Step(a).b.queue|
    case Carry => 1
    case Lose => 1
    case Drop(_) => 0
  }

  function MovesBy(s: Sys, acts: seq<Action>): int
    requires s.Runs(acts)
    decreases |acts|
  {
    if acts == [] then 0 else Moves(s, acts[0]) + MovesBy(s.Step(acts[0]), acts[1..])
  }

  lemma {:induction false} CalmlyRuns(s: Sys, acts: seq<Action>)
    requires RunsCalmly(s, acts)
    ensures s.Runs(acts)
    decreases |acts|
  {
    if acts != [] { CalmlyRuns(s.Step(acts[0]), acts[1..]); }
  }

  predicate Sends(b: Bridge) { !b.busy && b.queue != [] }

  /** A part of loop() that at most issues other writes. */
  ghost predicate OnlyIssues(b: Bridge, c: Bridge)
  {
    && Continues(b, c) && c.lastHash == b.lastHash && c.api == b.api && c.dfu == b.dfu
    && c.connected == b.connected && c.discovered == b.discovered && c.postDfu == b.postDfu
  }

  lemma {:induction false} DeliverOnlyIssues(b: Bridge, notes: seq<Note>)
    ensures OnlyIssues(b, b.Deliver(notes))
    decreases |notes|
  {
    DeliverContinues(b, notes);
    if notes != [] {
      if notes[0].message == [] {
        DeliverOnlyIssues(b, notes[1..]);
      } else if b.h.ans != 0 {
        DeliverOnlyIssues(b.SendNotification(notes[0].message, notes[0].accepted).(marked := b.marked + [notes[0].id]), notes[1..]);
      }
    }
  }

  lemma PollOnlyIssues(b: Bridge, now: word, p: Poll)
    requires b.lastHash == Djb2.Hash(Encode(Snapshot(b.api))) && (p.Polled? ==> p.reminders == b.api)
    ensures OnlyIssues(b, b.PollIfDue(now, p))
  {
    var c := b.(lastPoll := now).PollApi(p);
    if p.Polled? { DeliverOnlyIssues(b.(lastPoll := now, api := p.reminders), p.notes); }
    PollContinues(b, now, p);
    assert OnlyIssues(b, c);
  }

  lemma RefreshOnlyIssues(b: Bridge, now: word, t: TimeWrite)
    ensures OnlyIssues(b, b.RefreshWatch(now, t))
  {
    RefreshContinues(b, now, t);
  }

  /** A whole loop() call on a steady system. */
  lemma SteadyLoop(b: Bridge, now: word, i: LoopInput)
    requires b.dfu.state.IDLE? && !b.postDfu && b.connected && b.discovered
    requires b.lastHash == Djb2.Hash(Encode(Snapshot(b.api)))
    requires forall c :: c in b.queue ==> b.HandleFor(c) != 0
    requires i.accepted && (i.poll.Polled? ==> i.poll.reminders == b.api) && !(i.pair.Reply? && i.pair.dfuRequested)
    ensures OnlyIssues(b.ProcessQueue(true), b.LoopStep(now, i))
  {
    var o := b.(dfuStart := 0);
    assert b.PastSupervision(now).AfterDfu(now).EndGrace(now) == o;
    var q := o.ProcessQueue(true);
    assert OnlyIssues(b.ProcessQueue(true), q);
    PollOnlyIssues(q, now, i.poll);
    var p := q.PollIfDue(now, i.poll);
    RefreshOnlyIssues(p, now, i.time);
  }

  /** What a step that is not a completion leaves of a steady bridge, and what it adds to the link. */
  ghost predicate Advances(b: Bridge, c: Bridge)
  {
    && c.lastHash == b.lastHash && c.api == b.api && c.synced == b.synced
    && c.connected && c.discovered && c.dfu.state.IDLE? && !c.postDfu
    && c.queue == (if c.queue != b.queue && b.queue != [] then b.queue[1..] else b.queue)
    && |c.air| == |b.air| + (|b.queue| - |c.queue|) + (Others(c.air) - Others(b.air))
    && |b.air| <= |c.air| && (c.busy ==> b.busy || c.air != [])
  }

  lemma LoopAdvances(b: Bridge, now: word, i: LoopInput)
    requires b.dfu.state.IDLE? && !b.postDfu && b.connected && b.discovered
    requires b.lastHash == Djb2.Hash(Encode(Snapshot(b.api)))
    requires forall c :: c in b.queue ==> b.HandleFor(c) != 0
    requires i.accepted && (i.poll.Polled? ==> i.poll.reminders == b.api) && !(i.pair.Reply? && i.pair.dfuRequested)
    ensures Advances(b, b.LoopStep(now, i))
    ensures Sends(b) ==> b.LoopStep(now, i).queue == b.queue[1..]
  {
    var q, c := b.ProcessQueue(true), b.LoopStep(now, i);
    SteadyLoop(b, now, i);
    assert |b.air| <= |q.air| <= |c.air|;
    Supervision.SameCommands(q, c);
    if Sends(b) {
      CommandsConcat(b.air, [Sent(b.queue[0], b.HandleFor(b.queue[0]))]);
    }
  }

  lemma DiscoverAdvances(b: Bridge, now: word, f: Found, t: TimeWrite)
    requires b.dfu.state.IDLE? && !b.postDfu && b.connected && b.discovered
    requires b.lastHash == Djb2.Hash(Encode(Snapshot(b.api)))
    ensures var c := b.DiscoverServices(now, f, t); Advances(b, c) && Work(c) == Work(b)
  {
    var a := b.(h := b.h.Updated(f.h));
    SyncTimeContinues(a, now, t);
    var d := a.SyncTime(now, t);
    Supervision.SameCommands(a, d);
  }

  /** Any event but a completion or a drop, on a steady bridge. */
  lemma EventAdvances(b: Bridge, e: Event)
    requires b.dfu.state.IDLE? && !b.postDfu && b.connected && b.discovered
    requires b.lastHash == Djb2.Hash(Encode(Snapshot(b.api)))
    requires forall c :: c in b.queue ==> b.HandleFor(c) != 0
    requires !e.Disconnected? && !e.WriteDone? && Calm(Sys(b, map[], 0), Handle(e))
    ensures Advances(b, b.Step(e)) && Work(b.Step(e)) == Work(b)
  {
    match e
    case Loop(now, i) =>
      LoopAdvances(b, now, i);
      SteadyLoop(b, now, i);
      if Sends(b) {
        assert b.queue[0] in b.queue;
        SendingKeepsWork(b);
      }
    case Discover(now, f, t) => DiscoverAdvances(b, now, f, t);
    case Notified(h, data) => assert b.WithDfu(b.dfu) == b;
    case Open(_) =>
  }

  /** Every calm step keeps a steady system steady and uses up what remains, but for other writes issued. */
  lemma StepIsSteady(s: Sys, a: Action)
    requires Steady(s) && s.Enabled(a) && Calm(s, a)
    ensures var t := s.Step(a);
            && Steady(t) && t.b.api == s.b.api && Moves(s, a) >= 0
            && Remaining(t) + Moves(s, a) == Remaining(s) + 2 * Issued(s, a)
  {
    StepKeeps(s, a);
    match a
    case Handle(e) => if e.WriteDone? { CompletionIsSteady(s); } else { EventIsSteady(s, e); }
    case Carry => HeadCarried(s);
    case Lose => HeadCarried(s);
  }

  lemma CompletionIsSteady(s: Sys)
    requires Steady(s) && s.acks > 0
    ensures var t := s.Step(Handle(WriteDone));
            (Safe(t.b, t.acks) ==> Steady(t)) && t.b.api == s.b.api && t.b.queue == s.b.queue && t.b.air == s.b.air
  {
    CompletionKeeps(s.b, s.watch);
  }

  lemma CompletionKeeps(b: Bridge, w: WatchMap)
    ensures Work(b.OnWriteDone()) == Work(b) && (Agrees(b, w) ==> Agrees(b.OnWriteDone(), w)) && !b.OnWriteDone().busy
  {
  }

  lemma EventIsSteady(s: Sys, e: Event)
    requires Steady(s) && s.Enabled(Handle(e)) && !e.WriteDone? && Calm(s, Handle(e)) && Safe(s.b.Step(e), s.acks)
    ensures var t := s.Step(Handle(e));
            && Steady(t) && t.b.api == s.b.api && Moves(s, Handle(e)) >= 0
            && Remaining(t) + Moves(s, Handle(e)) == Remaining(s) + 2 * Issued(s, Handle(e))
  {
    EventAdvances(s.b, e);
    var c := s.b.Step(e);
    assert s.Step(Handle(e)) == Sys(c, s.watch, s.acks);
  }

  lemma {:induction false} RunIsSteady(s: Sys, acts: seq<Action>)
    requires Steady(s) && RunsCalmly(s, acts) && s.Runs(acts)
    ensures var u := s.Exec(acts);
            && Steady(u) && u.b.api == s.b.api
            && Remaining(u) + MovesBy(s, acts) == Remaining(s) + 2 * IssuedBy(s, acts)
    decreases |acts|
  {
    if acts != [] {
      StepIsSteady(s, acts[0]);
      RunIsSteady(s.Step(acts[0]), acts[1..]);
    }
  }

  /** Some calm step moves something. */
  ghost predicate CanMove(s: Sys) { exists a :: s.Enabled(a) && Calm(s, a) && Moves(s, a) == 1 }

  lemma SteadyCanMove(s: Sys)
    requires Steady(s) && Remaining(s) > 0
    ensures CanMove(s)
  {
    if s.b.air != [] {
      assert s.Enabled(Carry) && Calm(s, Carry) && Moves(s, Carry) == 1;
    } else if s.acks > 0 {
      assert s.Enabled(Handle(WriteDone)) && Calm(s, Handle(WriteDone)) && Moves(s, Handle(WriteDone)) == 1;
    } else {
      LoopAdvances(s.b, 1, LoopInput(true, PollFailed, TimeWrite(false, false), NotPolled));
      assert s.Enabled(QuietLoop(true)) && Calm(s, QuietLoop(true)) && Moves(s, QuietLoop(true)) == 1;
    }
  }

  lemma SteadyHeals(s: Sys)
    requires Steady(s) && Work(s.b) == []
    ensures Healed(s, s.b.api)
  {
  }

  /** Will some completion clear a busy flag left over from the old link? Known before the reconnect's first loop() call. */
  predicate Unjams(busy: bool, kept: nat, f: Found, tw: TimeWrite) { busy ==> kept > 0 || TimeWritten(f, tw) }

  lemma RequeuedIsSteadyIff(t: Sys, s: Sys, kept: nat, f: Found, tw: TimeWrite)
    requires Requeued(t, s, kept, f, tw) && AllFound(f) && Djb2.Hash(Encode(Snapshot(s.b.api))) != 0
    ensures Steady(t) <==> Unjams(s.b.busy, kept, f, tw)
    ensures Jammed(t) <==> !Unjams(s.b.busy, kept, f, tw)
    ensures Remaining(t) == 3 * (1 + |Snapshot(s.b.api)|) + (if TimeWritten(f, tw) then 2 else 0) + kept
  {
    BatchReplaces([], Snapshot(s.b.api), t.watch);
    assert Commands(t.b.air) == [] by {
      if t.b.air != [] { assert t.b.air[1..] == []; }
    }
    assert [] + t.b.queue == t.b.queue == Work(t.b);
  }

  /** A drop leaves the bridge jammed exactly if the flag is set and no completion survives. */
  lemma DropJamsIff(s: Sys, kept: nat)
    requires s.Enabled(Drop(kept))
    ensures Jammed(s.Step(Drop(kept))) <==> s.b.busy && kept == 0
  {
  }

  /**
    A reconnect after a noticed loss, with no update running or just ended and a snapshot whose hash is not 0, leads to
    a steady system exactly if the busy flag is clear, some completion survived the drop, or the time is written; else
    to a jammed one.
   */
  lemma ReconnectSteadyIff(s: Sys, kept: nat, now: word, f: Found, tw: TimeWrite)
    requires Recovers(s.b) && AllFound(f) && s.Enabled(Drop(kept)) && Djb2.Hash(Encode(Snapshot(s.b.api))) != 0
    ensures s.Runs(Reconnect(kept, now, f, tw))
    ensures var t := s.Exec(Reconnect(kept, now, f, tw));
            && (Steady(t) <==> Unjams(s.b.busy, kept, f, tw))
            && (Jammed(t) <==> !Unjams(s.b.busy, kept, f, tw))
  {
    var t := ReconnectQueues(s, kept, now, f, tw);
    LeadsTo(s, Reconnect(kept, now, f, tw), t);
    RequeuedIsSteadyIff(t, s, kept, f, tw);
  }

  /**
    Sync heals itself in every order of events: after such a reconnect, unless it leads to the jam, whatever the watch
    holds and however loops, polls of the same reminders, completions, rediscoveries and other writes interleave. The
    moves made and the moves remaining add up to three for each command, two for each other write and one for each
    surviving completion; while any remain some step makes one; and once no command is outstanding the watch holds
    exactly the snapshot's records.
   */
  lemma {:induction false} SyncHeals(s: Sys, kept: nat, now: word, f: Found, tw: TimeWrite, acts: seq<Action>)
    requires Recovers(s.b) && AllFound(f) && s.Enabled(Drop(kept)) && Djb2.Hash(Encode(Snapshot(s.b.api))) != 0
    requires Unjams(s.b.busy, kept, f, tw)
    requires s.Runs(Reconnect(kept, now, f, tw)) && RunsCalmly(s.Exec(Reconnect(kept, now, f, tw)), acts)
    ensures s.Exec(Reconnect(kept, now, f, tw)).Runs(acts)
    ensures var t := s.Exec(Reconnect(kept, now, f, tw));
            var u := t.Exec(acts);
            && MovesBy(t, acts) + Remaining(u) == 3 * (1 + |Snapshot(s.b.api)|) + (if TimeWritten(f, tw) then 2 else 0) + kept
                                                  + 2 * IssuedBy(t, acts)
            && (Remaining(u) > 0 ==> CanMove(u))
            && (Work(u.b) == [] ==> Healed(u, s.b.api))
  {
    var t := ReconnectQueues(s, kept, now, f, tw);
    LeadsTo(s, Reconnect(kept, now, f, tw), t);
    RequeuedIsSteadyIff(t, s, kept, f, tw);
    CalmlyRuns(t, acts);
    RunIsSteady(t, acts);
    var u := t.Exec(acts);
    if Remaining(u) > 0 { SteadyCanMove(u); }
    if Work(u.b) == [] { SteadyHeals(u); }
  }
}
