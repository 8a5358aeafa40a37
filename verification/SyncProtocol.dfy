/**
  Reminder sync as a protocol between the bridge and the watch: a cached hash and a command queue on one side,
  a table of records on the other, and a link that carries writes in order and may drop.
 */
module SyncProtocol {
  import opened Bytes
  import opened WireFormat
  import opened Bridges
  import opened DfuClients
  import Djb2

  /** The watch's reminders: slot number to 72-byte record. */
  type WatchMap = map<byte, seq<byte>>

  function Apply(c: Command, w: WatchMap): WatchMap
  {
    match c.kind
    case DELETE_REMINDER => if c.data == [0xFF] then map[] else if |c.data| == 1 then w - {c.data[0]} else w
    case WRITE_REMINDER => if |c.data| == RECORD_SIZE then w[c.data[1] := c.data] else w
    case SYNC_ALL => w
  }

  function Replay(cs: seq<Command>, w: WatchMap): WatchMap
  {
    if cs == [] then w else Replay(cs[1..], Apply(cs[0], w))
  }

  /** The reminder commands among the writes the link carries. */
  function Commands(air: seq<Out>): seq<Command>
  {
    if air == [] then [] else Own(air[0]) + Commands(air[1..])
  }

  function Own(o: Out): seq<Command> { if o.Sent? then [o.cmd] else [] }

  /** What a watch holding exactly these reminders looks like. */
  function RecordsOf(rs: seq<ApiReminder>): WatchMap { Replay(Uploads(rs), map[]) }

  /** Everything sent or queued and not yet carried out. */
  function Work(b: Bridge): seq<Command> { Commands(b.air) + b.queue }

  /** The kinds of command the bridge queues. */
  predicate Proper(c: Command) { c == DeleteAll || (c.kind.WRITE_REMINDER? && |c.data| == RECORD_SIZE) }

  predicate AllProper(cs: seq<Command>) { forall c :: c in cs ==> Proper(c) }

  // ---------------------------------------------------------------- the composed system

  datatype Action =
    | Handle(e: Event)      // the bridge handles an event other than a disconnect
    | Carry                 // the watch carries out the oldest write and its completion is on its way
    | Lose                  // the oldest write fails; its completion event says so
    | Drop(kept: nat)       // the link drops; `kept` completion events still reach the bridge

  predicate ReliableEvent(e: Event)
  {
    && (e.Loop? ==> e.input.accepted)
    && (e.Discover? && e.found.h.upload != 0 ==> e.found.h.delete != 0)
  }

  datatype Sys = Sys(b: Bridge, watch: WatchMap, acks: nat)
  {
    predicate Enabled(a: Action)
    {
      match a
      case Handle(e) => !e.Disconnected? && (e.WriteDone? ==> acks > 0)
      case Carry => b.air != []
      case Lose => b.air != []
      case Drop(kept) => kept <= acks + |b.air|
    }

    function Step(a: Action): Sys
      requires Enabled(a)
    {
      match a
      case Handle(e) => Sys(b.Step(e), watch, if e.WriteDone? then acks - 1 else acks)
      case Carry =>
        Sys(b.(air := b.air[1..]), if b.air[0].Sent? then Apply(b.air[0].cmd, watch) else watch, acks + 1)
      case Lose => Sys(b.(air := b.air[1..]), watch, acks + 1)
      case Drop(kept) => Sys(b.Step(Disconnected), watch, kept)
    }

    /** Does the bridge notice that this disconnect loses work, or is there nothing to lose? */
    predicate DropIsNoticed() { b.queue != [] || b.pending > 0 || Commands(b.air) == [] }

    /**
      The steps that lose no reminder command unnoticed: queue writes are accepted, a discovery that finds the
      upload handle finds the delete handle, no reminder write fails, and no unnoticed drop.
     */
    predicate Reliable(a: Action)
    {
      match a
      case Handle(e) => ReliableEvent(e)
      case Carry => true
      case Lose => b.air != [] && !b.air[0].Sent?
      case Drop(_) => DropIsNoticed()
    }

    predicate Runs(acts: seq<Action>)
      decreases |acts|
    {
      acts == [] || (Enabled(acts[0]) && Step(acts[0]).Runs(acts[1..]))
    }

    predicate RunsReliably(acts: seq<Action>)
      decreases |acts|
    {
      acts == [] || (Enabled(acts[0]) && Reliable(acts[0]) && Step(acts[0]).RunsReliably(acts[1..]))
    }

    function Exec(acts: seq<Action>): Sys
      requires Runs(acts) || RunsReliably(acts)
      decreases |acts|
    {
      if acts == [] then this else Step(acts[0]).Exec(acts[1..])
    }
  }

  function Boot(pollInterval: word, now: word, watch: WatchMap): Sys
  {
    Sys(Booted(pollInterval, now), watch, 0)
  }

  // ---------------------------------------------------------------- replay algebra

  lemma {:induction false} ReplayConcat(a: seq<Command>, b: seq<Command>, w: WatchMap)
    ensures Replay(a + b, w) == Replay(b, Replay(a, w))
    decreases |a|
  {
    if a == [] {
      assert a + b == b;
    } else {
      assert (a + b)[1..] == a[1..] + b;
      ReplayConcat(a[1..], b, Apply(a[0], w));
    }
  }

  lemma Associates<T>(a: seq<T>, b: seq<T>, c: seq<T>)
    ensures (a + b) + c == a + (b + c)
  {
  }

  lemma {:induction false} CommandsConcat(a: seq<Out>, b: seq<Out>)
    ensures Commands(a + b) == Commands(a) + Commands(b)
    decreases |a|
  {
    if a == [] {
      assert a + b == b;
    } else {
      assert (a + b)[1..] == a[1..] + b;
      CommandsConcat(a[1..], b);
      Associates(Own(a[0]), Commands(a[1..]), Commands(b));
    }
  }

  lemma {:induction false} NoCommands(air: seq<Out>)
    requires forall o :: o in air ==> !o.Sent?
    ensures Commands(air) == []
    decreases |air|
  {
    if air != [] {
      NoCommands(air[1..]);
    }
  }

  /** A batch begins by erasing: whatever the watch held and whatever was queued before leave no trace. */
  lemma BatchReplaces(before: seq<Command>, rs: seq<ApiReminder>, w: WatchMap)
    ensures Replay(before + ([DeleteAll] + Uploads(rs)), w) == RecordsOf(rs)
  {
    ReplayConcat(before, [DeleteAll] + Uploads(rs), w);
    assert ([DeleteAll] + Uploads(rs))[1..] == Uploads(rs);
  }

  // ---------------------------------------------------------------- what every step keeps

  /**
    Kept by every step whatsoever: queued commands exist only while the handles they need are known, all outstanding
    ones are delete-alls or whole records, and the counter of pending writes never exceeds what is really outstanding.
   */
  ghost predicate Safe(b: Bridge, acks: nat)
  {
    && (b.queue != [] ==> b.h.upload != 0)
    && (forall c :: c in b.queue ==> b.HandleFor(c) != 0)
    && AllProper(Work(b))
    && b.pending as nat <= |b.air| + acks
  }

  /**
    If the cached hash says "synced", it is the hash of the snapshot queued last, and finishing the outstanding work
    leaves the watch with exactly that snapshot's records.
   */
  ghost predicate Agrees(b: Bridge, w: WatchMap)
  {
    b.lastHash != 0 ==>
      |b.synced| <= MAX_REMINDERS && Djb2.Hash(Encode(b.synced)) == b.lastHash && Replay(Work(b), w) == RecordsOf(b.synced)
  }

  /** Kept by reliable steps. */
  ghost predicate Synced(b: Bridge, w: WatchMap)
  {
    Agrees(b, w) && (b.h.upload != 0 ==> b.h.delete != 0)
  }

  /** A bridge function that changes no reminder work and adds a counted write at most once. */
  ghost predicate Continues(b: Bridge, b': Bridge)
  {
    && Work(b') == Work(b) && b'.queue == b.queue && b'.h == b.h && b'.busy == b.busy && b'.synced == b.synced
    && (b'.lastHash == b.lastHash || b'.lastHash == 0)
    && |b'.air| >= |b.air| && b'.pending as nat <= b.pending as nat + |b'.air| - |b.air|
  }

  lemma Continued(b: Bridge, b': Bridge, acks: nat, w: WatchMap)
    requires Safe(b, acks) && Continues(b, b')
    ensures Safe(b', acks)
    ensures Synced(b, w) ==> Synced(b', w)
  {
  }

  lemma ContinuesTrans(a: Bridge, b: Bridge, c: Bridge)
    requires Continues(a, b) && Continues(b, c)
    ensures Continues(a, c)
  {
  }

  lemma OtherWrite(b: Bridge, b': Bridge, o: Out)
    requires !o.Sent? && b'.air == b.air + [o] && b'.queue == b.queue
    ensures Work(b') == Work(b)
  {
    CommandsConcat(b.air, [o]);
    NoCommands([o]);
    assert Commands(b.air) + [] == Commands(b.air);
  }

  lemma SyncTimeContinues(b: Bridge, now: word, t: TimeWrite)
    ensures Continues(b, b.SyncTime(now, t))
  {
    if b.h.cts != 0 && t.valid && t.accepted {
      OtherWrite(b, b.SyncTime(now, t), Time);
    }
  }

  lemma SendContinues(b: Bridge, message: seq<text>, accepted: bool)
    ensures Continues(b, b.SendNotification(message, accepted))
  {
    if b.h.ans != 0 && accepted {
      OtherWrite(b, b.SendNotification(message, accepted), Alert(AnsPayload(message)));
    }
  }

  lemma {:induction false} DeliverContinues(b: Bridge, notes: seq<Note>)
    ensures Continues(b, b.Deliver(notes))
    decreases |notes|
  {
    if notes != [] {
      if notes[0].message == [] {
        DeliverContinues(b, notes[1..]);
      } else if b.h.ans != 0 {
        var c := b.SendNotification(notes[0].message, notes[0].accepted).(marked := b.marked + [notes[0].id]);
        SendContinues(b, notes[0].message, notes[0].accepted);
        DeliverContinues(c, notes[1..]);
        ContinuesTrans(b, c, b.Deliver(notes));
      }
    }
  }

  lemma FirmwareContinues(b: Bridge, d: Client)
    ensures Continues(b, b.WithDfu(d))
  {
    var more: seq<Out> := if |d.writes| > |b.dfu.writes| then seq(|d.writes| - |b.dfu.writes|, _ => Firmware) else [];
    assert b.WithDfu(d) == b.(dfu := d, air := b.air + more);
    CommandsConcat(b.air, more);
    NoCommands(more);
    assert Commands(b.air) + [] == Commands(b.air);
  }

  lemma SyncIsSafe(b: Bridge, acks: nat)
    requires Safe(b, acks)
    ensures Safe(b.SyncReminders(), acks)
  {
    if b.SyncDue() {
      var rs := Snapshot(b.api);
      Associates(Commands(b.air), b.queue, b.Batch(rs));
    }
  }

  lemma SyncAgrees(b: Bridge, w: WatchMap)
    requires b.SyncDue() && b.h.delete != 0
    ensures Agrees(b.SyncReminders(), w)
  {
    var rs := Snapshot(b.api);
    Associates(Commands(b.air), b.queue, b.Batch(rs));
    BatchReplaces(Work(b), rs, w);
  }

  lemma SyncKeeps(b: Bridge, acks: nat, w: WatchMap)
    requires Safe(b, acks)
    ensures Safe(b.SyncReminders(), acks)
    ensures Synced(b, w) ==> Synced(b.SyncReminders(), w)
  {
    SyncIsSafe(b, acks);
    if b.SyncDue() && Synced(b, w) { SyncAgrees(b, w); }
  }

  /** Whatever becomes of the head of the queue, sent, refused or without a handle, it does not hold up what is behind it. */
  lemma QueueAdvances(b: Bridge, accepted: bool)
    requires b.queue != []
    ensures b.ProcessNext(accepted).queue == b.queue[1..] && |b.ProcessNext(accepted).queue| < |b.queue|
    ensures b.HandleFor(b.queue[0]) == 0 || !accepted ==>
              b.ProcessNext(accepted).air == b.air && b.ProcessNext(accepted).busy == b.busy
  {
  }

  /** An accepted command moves from the queue to the link. */
  lemma SendingKeepsWork(b: Bridge)
    requires b.queue != [] && b.HandleFor(b.queue[0]) != 0
    ensures Work(b.ProcessNext(true)) == Work(b)
  {
    CommandsConcat(b.air, [Sent(b.queue[0], b.HandleFor(b.queue[0]))]);
    assert [Sent(b.queue[0], b.HandleFor(b.queue[0]))][1..] == [];
    assert [b.queue[0]] + b.queue[1..] == b.queue;
    Associates(Commands(b.air), [b.queue[0]], b.queue[1..]);
  }

  lemma ProcessKeeps(b: Bridge, accepted: bool, acks: nat, w: WatchMap)
    requires Safe(b, acks)
    ensures Safe(b.ProcessNext(accepted), acks)
    ensures b.ProcessNext(accepted).h == b.h
    ensures b.queue != [] ==> b.HandleFor(b.queue[0]) != 0
    ensures accepted && Synced(b, w) ==> Synced(b.ProcessNext(accepted), w)
  {
    if b.queue != [] {
      assert b.queue[0] in b.queue;
      if accepted {
        SendingIsSafe(b, acks);
        SendingKeepsWork(b);
      } else {
        RefusingIsSafe(b, acks);
      }
    }
  }

  lemma SendingIsSafe(b: Bridge, acks: nat)
    requires Safe(b, acks) && b.queue != [] && b.HandleFor(b.queue[0]) != 0
    ensures Safe(b.ProcessNext(true), acks)
  {
    SendingKeepsWork(b);
    assert forall c :: c in b.queue[1..] ==> c in b.queue;
  }

  lemma RefusingIsSafe(b: Bridge, acks: nat)
    requires Safe(b, acks) && b.queue != [] && b.HandleFor(b.queue[0]) != 0
    ensures Safe(b.ProcessNext(false), acks)
  {
    assert forall c :: c in b.queue[1..] ==> c in b.queue;
  }

  lemma AllowedSyncKeeps(b: Bridge, acks: nat, w: WatchMap)
    requires Safe(b, acks)
    ensures Safe(b.SyncIfAllowed(), acks)
    ensures Synced(b, w) ==> Synced(b.SyncIfAllowed(), w)
  {
    SyncKeeps(b, acks, w);
  }

  lemma PollKeeps(b: Bridge, now: word, p: Poll, acks: nat, w: WatchMap)
    requires Safe(b, acks)
    ensures Safe(b.PollIfDue(now, p), acks)
    ensures Synced(b, w) ==> Synced(b.PollIfDue(now, p), w)
  {
    if Wrap(now - b.lastPoll) > b.pollInterval {
      var c := b.(lastPoll := now).PollApi(p);
      PollContinues(b, now, p);
      Continued(b, c, acks, w);
      AllowedSyncKeeps(c, acks, w);
      assert b.PollIfDue(now, p) == c.SyncIfAllowed();
    } else {
      assert b.PollIfDue(now, p) == b;
    }
  }

  lemma PollContinues(b: Bridge, now: word, p: Poll)
    ensures Continues(b, b.(lastPoll := now).PollApi(p))
  {
    if p.Polled? {
      var c := b.(lastPoll := now, api := p.reminders);
      DeliverContinues(c, p.notes);
      assert Continues(b, c);
      ContinuesTrans(b, c, c.Deliver(p.notes));
    }
  }

  lemma SuperviseContinues(b: Bridge, now: word)
    requires b.DfuActive()
    ensures Continues(b, b.Supervise(now))
  {
    var c := if b.dfuStart == 0 then b.(dfuStart := now) else b;
    FirmwareContinues(c, c.dfu.Step(Process));
  }

  lemma EarlyContinues(b: Bridge, now: word)
    ensures Continues(b, b.PastSupervision(now).AfterDfu(now).EndGrace(now))
  {
    if b.DfuActive() { SuperviseContinues(b, now); }
    ContinuesTrans(b, b.PastSupervision(now), b.PastSupervision(now).AfterDfu(now));
  }

  lemma RefreshContinues(b: Bridge, now: word, t: TimeWrite)
    ensures Continues(b, b.RefreshWatch(now, t))
  {
    SyncTimeContinues(b.(lastWatchPoll := now), now, t);
  }

  lemma PairingContinues(b: Bridge, r: PairReply)
    ensures Continues(b, b.CheckPairing(r))
  {
    if r.Reply? { FirmwareContinues(b, b.dfu.Begin(r.bin, r.dat)); }
  }

  lemma QueueKeeps(b: Bridge, accepted: bool, acks: nat, w: WatchMap)
    requires Safe(b, acks)
    ensures Safe(b.ProcessQueue(accepted), acks)
    ensures accepted && Synced(b, w) ==> Synced(b.ProcessQueue(accepted), w)
  {
    ProcessKeeps(b, accepted, acks, w);
  }

  lemma LoopKeeps(b: Bridge, now: word, i: LoopInput, acks: nat, w: WatchMap)
    requires Safe(b, acks)
    ensures Safe(b.LoopStep(now, i), acks)
    ensures i.accepted && Synced(b, w) ==> Synced(b.LoopStep(now, i), w)
  {
    if b.DfuActive() && !b.TimedOut(now) {
      SuperviseContinues(b, now);
      Continued(b, b.Supervise(now), acks, w);
    } else {
      var b1 := b.PastSupervision(now).AfterDfu(now).EndGrace(now);
      EarlyContinues(b, now);
      Continued(b, b1, acks, w);
      var b2 := b1.ProcessQueue(i.accepted);
      QueueKeeps(b1, i.accepted, acks, w);
      var b3 := b2.PollIfDue(now, i.poll);
      PollKeeps(b2, now, i.poll, acks, w);
      var b4 := b3.RefreshWatch(now, i.time);
      RefreshContinues(b3, now, i.time);
      Continued(b3, b4, acks, w);
      PairingContinues(b4, i.pair);
      Continued(b4, b4.CheckPairing(i.pair), acks, w);
    }
  }

  lemma UseServiceKeeps(b: Bridge, acks: nat, w: WatchMap)
    requires Safe(b, acks)
    ensures Safe(b.UseReminderService(), acks)
    ensures Synced(b, w) ==> Synced(b.UseReminderService(), w)
  {
    if b.h.upload != 0 && b.h.sync != 0 {
      var c := b.(discovered := true);
      assert Continues(b, c);
      Continued(b, c, acks, w);
      SyncKeeps(c, acks, w);
      assert Continues(c.SyncIfAllowed(), b.UseReminderService());
      Continued(c.SyncIfAllowed(), b.UseReminderService(), acks, w);
    }
  }

  lemma DiscoverKeeps(b: Bridge, now: word, f: Found, t: TimeWrite, acks: nat, w: WatchMap)
    requires Safe(b, acks)
    ensures Safe(b.DiscoverServices(now, f, t), acks)
    ensures (f.h.upload != 0 ==> f.h.delete != 0) && Synced(b, w) ==> Synced(b.DiscoverServices(now, f, t), w)
  {
    var c := b.(h := b.h.Updated(f.h));
    Rediscovered(b, f, acks, w);
    if b.dfu.state.CONNECTING? && f.ctrl != 0 && f.pkt != 0 {
      FirmwareContinues(c, b.dfu.ServicesDiscovered(f.ctrl, f.pkt));
      Continued(c, b.DiscoverServices(now, f, t), acks, w);
    } else {
      SyncTimeContinues(c, now, t);
      Continued(c, c.SyncTime(now, t), acks, w);
      UseServiceKeeps(c.SyncTime(now, t), acks, w);
    }
  }

  /** A discovery never loses a handle. */
  lemma Rediscovered(b: Bridge, f: Found, acks: nat, w: WatchMap)
    requires Safe(b, acks)
    ensures Safe(b.(h := b.h.Updated(f.h)), acks)
    ensures (f.h.upload != 0 ==> f.h.delete != 0) && Synced(b, w) ==> Synced(b.(h := b.h.Updated(f.h)), w)
  {
  }

  lemma EventKeeps(b: Bridge, e: Event, acks: nat, w: WatchMap)
    requires Safe(b, acks) && !e.Disconnected? && !e.WriteDone?
    ensures Safe(b.Step(e), acks)
    ensures ReliableEvent(e) && Synced(b, w) ==> Synced(b.Step(e), w)
  {
    match e
    case Loop(now, i) => LoopKeeps(b, now, i, acks, w);
    case Discover(now, f, t) => DiscoverKeeps(b, now, f, t, acks, w);
    case Open(now) =>
      assert Continues(b, b.OnOpen(now));
      Continued(b, b.OnOpen(now), acks, w);
    case Notified(h, data) =>
      FirmwareContinues(b, b.dfu.Step(Notify(h, data)));
      Continued(b, b.OnNotify(h, data), acks, w);
  }

  // ---------------------------------------------------------------- steps of the system

  /** The oldest write leaves the link. */
  lemma HeadLeaves(b: Bridge)
    requires b.air != []
    ensures Work(b) == Own(b.air[0]) + Work(b.(air := b.air[1..]))
  {
    Associates(Own(b.air[0]), Commands(b.air[1..]), b.queue);
  }

  /** The watch carries out the oldest write, or one that is no command fails. */
  lemma HeadCarried(s: Sys)
    requires s.b.air != []
    ensures Agrees(s.b, s.watch) ==> Agrees(s.Step(Carry).b, s.Step(Carry).watch)
    ensures Agrees(s.b, s.watch) && !s.b.air[0].Sent? ==> Agrees(s.Step(Lose).b, s.Step(Lose).watch)
  {
    HeadLeaves(s.b);
    var rest := Work(s.Step(Carry).b);
    if s.b.air[0].Sent? {
      assert ([s.b.air[0].cmd] + rest)[0] == s.b.air[0].cmd && ([s.b.air[0].cmd] + rest)[1..] == rest;
    } else {
      assert [] + rest == rest;
    }
  }

  lemma DropKeeps(s: Sys, kept: nat)
    requires s.DropIsNoticed() && kept <= s.acks + |s.b.air| && Synced(s.b, s.watch)
    ensures Synced(s.Step(Drop(kept)).b, s.watch)
  {
    var t := s.Step(Drop(kept));
    assert t.b.lastHash != 0 ==> Work(t.b) == [] && Work(s.b) == [];
  }

  /** Every step, reliable or not, keeps the accounting; every reliable step keeps the agreement. */
  lemma StepKeeps(s: Sys, a: Action)
    requires s.Enabled(a) && Safe(s.b, s.acks)
    ensures Safe(s.Step(a).b, s.Step(a).acks)
    ensures s.Reliable(a) && Synced(s.b, s.watch) ==> Synced(s.Step(a).b, s.Step(a).watch)
  {
    match a
    case Handle(e) =>
      if !e.WriteDone? { EventKeeps(s.b, e, s.acks, s.watch); }
    case Carry => HeadCarried(s);
    case Lose => HeadCarried(s);
    case Drop(kept) => if Synced(s.b, s.watch) && s.DropIsNoticed() { DropKeeps(s, kept); }
  }

  lemma {:induction false} RunKeepsSafe(s: Sys, acts: seq<Action>)
    requires s.Runs(acts) && Safe(s.b, s.acks)
    ensures Safe(s.Exec(acts).b, s.Exec(acts).acks)
    decreases |acts|
  {
    if acts != [] {
      StepKeeps(s, acts[0]);
      RunKeepsSafe(s.Step(acts[0]), acts[1..]);
    }
  }

  lemma {:induction false} RunKeepsSynced(s: Sys, acts: seq<Action>)
    requires s.RunsReliably(acts) && Safe(s.b, s.acks) && Synced(s.b, s.watch)
    ensures Synced(s.Exec(acts).b, s.Exec(acts).watch)
    decreases |acts|
  {
    if acts != [] {
      StepKeeps(s, acts[0]);
      RunKeepsSynced(s.Step(acts[0]), acts[1..]);
    }
  }

  // ---------------------------------------------------------------- main results

  /**
    Write accounting over every run: at most as many writes are counted as are outstanding, and a queued
    command never meets a missing handle, so the drop branch of process_next_command_ is never taken.
   */
  lemma {:induction false} WriteAccounting(pollInterval: word, now: word, watch: WatchMap, acts: seq<Action>, accepted: bool)
    requires Boot(pollInterval, now, watch).Runs(acts)
    ensures var s := Boot(pollInterval, now, watch).Exec(acts);
            && s.b.pending as nat <= |s.b.air| + s.acks
            && AllProper(Work(s.b)) && (forall c :: c in s.b.queue ==> s.b.HandleFor(c) != 0)
            && (s.b.queue != [] && accepted ==> s.b.ProcessNext(accepted).air == s.b.air + [Sent(s.b.queue[0], s.b.HandleFor(s.b.queue[0]))])
  {
    RunKeepsSafe(Boot(pollInterval, now, watch), acts);
    var s := Boot(pollInterval, now, watch).Exec(acts);
    if s.b.queue != [] {
      assert s.b.queue[0] in s.b.queue;
    }
  }

  /**
    Cache agreement over every reliable run, whatever the watch held at boot: with a hash cached, finishing the
    outstanding work leaves exactly the records of the snapshot queued last, which has that hash and which the bridge
    held at some point of the run.
   */
  lemma CacheAgreement(pollInterval: word, now: word, watch: WatchMap, acts: seq<Action>)
    requires Boot(pollInterval, now, watch).RunsReliably(acts)
    ensures var s0 := Boot(pollInterval, now, watch);
            var s := s0.Exec(acts);
            s.b.lastHash != 0 ==>
              && WasHeld(s0, acts, s.b.synced)
              && Djb2.Hash(Encode(s.b.synced)) == s.b.lastHash
              && Replay(Work(s.b), s.watch) == RecordsOf(s.b.synced)
  {
    var s0 := Boot(pollInterval, now, watch);
    RunKeepsSynced(s0, acts);
    ReliablyRuns(s0, acts);
    SyncedWasHeld(s0, acts);
    NothingPolled(s0, acts);
  }

  /** A snapshot of the reminders the bridge held after some prefix of a run. */
  ghost predicate WasHeld(s: Sys, acts: seq<Action>, rs: seq<ApiReminder>)
  {
    |rs| <= MAX_REMINDERS && exists n :: 0 <= n <= |acts| && s.Runs(acts[..n]) && rs == Snapshot(s.Exec(acts[..n]).b.api)
  }

  lemma {:induction false} ReliablyRuns(s: Sys, acts: seq<Action>)
    requires s.RunsReliably(acts)
    ensures s.Runs(acts)
    decreases |acts|
  {
    if acts != [] { ReliablyRuns(s.Step(acts[0]), acts[1..]); }
  }

  lemma NothingPolled(s: Sys, acts: seq<Action>)
    requires s.b.api == []
    ensures WasHeld(s, acts, [])
  {
    assert acts[..0] == [];
    assert s.Runs(acts[..0]) && s.Exec(acts[..0]) == s && Snapshot(s.b.api) == [];
  }

  /** A part of loop() that writes nothing and leaves the reminders and what was done with them alone. */
  ghost predicate Bystander(b: Bridge, c: Bridge)
  {
    && c.air == b.air && c.marked == b.marked && c.synced == b.synced && c.api == b.api && c.h == b.h
    && c.lastPoll == b.lastPoll && c.pollInterval == b.pollInterval
  }

  lemma AfterBystander(b: Bridge, now: word)
    ensures Bystander(b, b.AfterDfu(now))
  {
  }

  lemma EndBystander(b: Bridge, now: word)
    ensures Bystander(b, b.EndGrace(now))
  {
  }

  lemma EarlyBystander(b: Bridge, now: word)
    requires !b.DfuActive() || b.TimedOut(now)
    ensures Bystander(b, b.PastSupervision(now).AfterDfu(now).EndGrace(now))
  {
    AfterBystander(b.PastSupervision(now), now);
    EndBystander(b.PastSupervision(now).AfterDfu(now), now);
  }

  /** The last queued snapshot is kept, or is the one held at the end. */
  ghost predicate Syncs(b: Bridge, c: Bridge) { c.synced == b.synced || c.synced == Snapshot(c.api) }

  lemma QueueKeepsSynced(b: Bridge, accepted: bool)
    ensures b.ProcessQueue(accepted).synced == b.synced
  {
  }

  lemma PollSyncs(b: Bridge, now: word, p: Poll)
    ensures Syncs(b, b.PollIfDue(now, p))
  {
    PollContinues(b, now, p);
  }

  lemma EndSyncs(b: Bridge, now: word, i: LoopInput)
    ensures b.RefreshWatch(now, i.time).CheckPairing(i.pair).synced == b.synced
  {
    RefreshContinues(b, now, i.time);
    PairingContinues(b.RefreshWatch(now, i.time), i.pair);
  }

  lemma LoopSyncs(b: Bridge, now: word, i: LoopInput)
    ensures Syncs(b, b.LoopStep(now, i))
  {
    if b.DfuActive() && !b.TimedOut(now) {
      SuperviseContinues(b, now);
    } else {
      var b1 := b.PastSupervision(now).AfterDfu(now).EndGrace(now);
      EarlyBystander(b, now);
      QueueKeepsSynced(b1, i.accepted);
      var b3 := b1.ProcessQueue(i.accepted).PollIfDue(now, i.poll);
      PollSyncs(b1.ProcessQueue(i.accepted), now, i.poll);
      EndSyncs(b3, now, i);
    }
  }

  lemma DiscoverSyncs(b: Bridge, now: word, f: Found, t: TimeWrite)
    ensures Syncs(b, b.DiscoverServices(now, f, t))
  {
    SyncTimeContinues(b.(h := b.h.Updated(f.h)), now, t);
  }

  /** A step keeps the last queued snapshot, or queues the one it holds at its end. */
  lemma StepSyncs(b: Bridge, e: Event)
    ensures Syncs(b, b.Step(e))
  {
    match e
    case Loop(now, i) => LoopSyncs(b, now, i);
    case Discover(now, f, t) => DiscoverSyncs(b, now, f, t);
    case _ =>
  }

  lemma {:induction false} SyncedWasHeld(s: Sys, acts: seq<Action>)
    requires s.Runs(acts)
    ensures s.Exec(acts).b.synced == s.b.synced || WasHeld(s, acts, s.Exec(acts).b.synced)
    decreases |acts|
  {
    if acts != [] {
      var t, u := s.Step(acts[0]), s.Exec(acts);
      SyncedWasHeld(t, acts[1..]);
      if acts[0].Handle? { StepSyncs(s.b, acts[0].e); }
      if WasHeld(t, acts[1..], u.b.synced) {
        var n :| 0 <= n <= |acts| - 1 && t.Runs(acts[1..][..n]) && u.b.synced == Snapshot(t.Exec(acts[1..][..n]).b.api);
        HeldLater(s, acts, n);
      } else if u.b.synced != s.b.synced {
        HeldNext(s, acts);
      }
    }
  }

  lemma HeldLater(s: Sys, acts: seq<Action>, n: nat)
    requires acts != [] && n < |acts| && s.Enabled(acts[0]) && s.Step(acts[0]).Runs(acts[1..][..n])
    ensures s.Runs(acts[..n + 1]) && s.Exec(acts[..n + 1]) == s.Step(acts[0]).Exec(acts[1..][..n])
  {
    assert acts[..n + 1][1..] == acts[1..][..n] && acts[..n + 1][0] == acts[0];
  }

  lemma HeldNext(s: Sys, acts: seq<Action>)
    requires acts != [] && s.Enabled(acts[0])
    ensures WasHeld(s, acts, Snapshot(s.Step(acts[0]).b.api))
  {
    assert acts[1..][..0] == [];
    HeldLater(s, acts, 0);
  }

  /**
    With nothing queued or in flight and the hash unchanged, the watch holds the snapshot, or that of an earlier poll
    whose different buffer has the same hash.
   */
  lemma Quiescence(pollInterval: word, now: word, watch: WatchMap, acts: seq<Action>)
    requires Boot(pollInterval, now, watch).RunsReliably(acts)
    ensures var s0 := Boot(pollInterval, now, watch);
            var s := s0.Exec(acts);
            var current := Snapshot(s.b.api);
            Work(s.b) == [] && s.b.lastHash != 0 && s.b.lastHash == Djb2.Hash(Encode(current)) ==>
              s.watch == RecordsOf(current) || CollidesWith(s0, acts, s.b.synced, current, s.watch)
  {
    CacheAgreement(pollInterval, now, watch, acts);
    var s := Boot(pollInterval, now, watch).Exec(acts);
    var current := Snapshot(s.b.api);
    if Work(s.b) == [] && s.b.lastHash != 0 && Encode(s.b.synced) == Encode(current) {
      SameBufferSameRecords(s.b.synced, current);
    }
  }

  /** The watch holds another snapshot the bridge once held, with a different buffer and the same hash. */
  ghost predicate CollidesWith(s: Sys, acts: seq<Action>, rs: seq<ApiReminder>, current: seq<ApiReminder>, watch: WatchMap)
    requires |current| <= MAX_REMINDERS
  {
    && WasHeld(s, acts, rs) && watch == RecordsOf(rs)
    && Encode(rs) != Encode(current) && Djb2.Hash(Encode(rs)) == Djb2.Hash(Encode(current))
  }

  lemma SameBufferSameRecords(a: seq<ApiReminder>, b: seq<ApiReminder>)
    requires |a| <= MAX_REMINDERS && |b| <= MAX_REMINDERS && Encode(a) == Encode(b)
    ensures Uploads(a) == Uploads(b)
  {
    EncodeInjective(a, b);
    forall i | 0 <= i < |a|
      ensures ToWatchReminder(a[i]) == ToWatchReminder(b[i])
    {
      NormalRecord(a[i]);
      NormalRecord(b[i]);
      assert NormalAll(a)[i] == NormalAll(b)[i];
    }
  }

  // ---------------------------------------------------------------- the exceptions

  ghost predicate DropIsHarmless(s: Sys)
  {
    forall w: WatchMap :: Agrees(s.b, w) ==> Agrees(s.Step(Drop(0)).b, w)
  }

  /** The slot an upload overwrites; any slot for a deletion. */
  function SlotOf(c: Command): byte { if |c.data| == RECORD_SIZE then c.data[1] else 0 }

  lemma {:induction false} RecordsHaveOneVersion(cs: seq<Command>, w: WatchMap, id: byte)
    requires forall k :: k in w ==> w[k] != [] && w[k][0] == 2
    requires forall c :: c in cs ==> |c.data| == RECORD_SIZE && c.data[0] == 2
    requires id in Replay(cs, w)
    ensures Replay(cs, w)[id] != [] && Replay(cs, w)[id][0] == 2
    decreases |cs|
  {
    if cs != [] {
      RecordsHaveOneVersion(cs[1..], Apply(cs[0], w), id);
    }
  }

  /** A first command that overwrites or erases hides what its slot held. */
  lemma FirstCommandHides(cs: seq<Command>, w: WatchMap)
    requires cs != [] && Proper(cs[0])
    ensures Replay(cs, w[SlotOf(cs[0]) := Foreign()]) == Replay(cs, w)
  {
    assert Apply(cs[0], w[SlotOf(cs[0]) := Foreign()]) == Apply(cs[0], w);
  }

  /**
    A disconnect and the cache: with a hash cached, commands in flight of the kinds the bridge queues, and an
    agreement to lose, the disconnect keeps the agreement for every watch exactly when something is queued, the
    write counter is not zero, or no reminder command is in flight.
   */
  lemma DropHarmlessIffNoticed(s: Sys, w0: WatchMap)
    requires s.b.lastHash != 0 && Agrees(s.b, w0)
    requires AllProper(Commands(s.b.air))
    ensures DropIsHarmless(s) <==> s.DropIsNoticed()
  {
    if s.DropIsNoticed() {
      forall w: WatchMap | Agrees(s.b, w)
        ensures Agrees(s.Step(Drop(0)).b, w)
      {
      }
    } else {
      UnnoticedDropHarms(s, w0);
    }
  }

  lemma UnnoticedDropHarms(s: Sys, w0: WatchMap)
    requires s.b.lastHash != 0 && Agrees(s.b, w0) && !s.DropIsNoticed()
    requires AllProper(Commands(s.b.air))
    ensures exists w: WatchMap :: Agrees(s.b, w) && !Agrees(s.Step(Drop(0)).b, w)
  {
    var cs := Commands(s.b.air);
    assert Work(s.b) == cs && cs[0] in cs;
    var w := w0[SlotOf(cs[0]) := Foreign()];
    FirstCommandHides(cs, w0);
    var t := s.Step(Drop(0));
    ForeignIsNoSnapshot(t.b, w, SlotOf(cs[0]));
  }

  /** A record this bridge never writes: that of another format version. */
  function Foreign(): (r: seq<byte>)
    ensures |r| == RECORD_SIZE && r[0] == 1
  {
    [1] + Zeros(RECORD_SIZE - 1)
  }

  lemma ForeignIsNoSnapshot(b: Bridge, w: WatchMap, id: byte)
    requires b.lastHash != 0 && Work(b) == [] && id in w && w[id] == Foreign()
    ensures !Agrees(b, w)
  {
    if Agrees(b, w) {
      RecordsHaveOneVersion(Uploads(b.synced), map[], id);
      assert false;
    }
  }

  /** A watch that has only the delete-all of an empty snapshot to carry out, behind a connection just made. */
  function Connecting(): seq<Action>
  {
    var h := Handles(1, 2, 3, 4, 0);
    [Handle(Open(1)), Handle(Discover(1, Found(h, 0, 0), TimeWrite(false, false)))]
  }

  function QuietLoop(accepted: bool): Action
  {
    Handle(Loop(1, LoopInput(accepted, PollFailed, TimeWrite(false, false), NotPolled)))
  }

  /** A watch with one stale record, written in another format version. */
  const Stale: WatchMap := map[5 := Foreign()]

  lemma EmptyHash()
    ensures Djb2.Hash(Encode([])) == 177573
  {
    assert Encode([]) == [0];
    Djb2.FromSnoc(Djb2.SEED, [], 0);
    assert [] + [0] == [0 as byte];
  }

  lemma StaleIsNoSnapshot(b: Bridge)
    requires b.lastHash != 0 && Work(b) == []
    ensures !Agrees(b, Stale)
  {
    ForeignIsNoSnapshot(b, Stale, 5);
  }

  lemma FirstDiscovery(b: Bridge)
    requires b.h == NoHandles && b.api == [] && b.lastHash == 0 && b.queue == [] && b.dfu.state.IDLE? && !b.postDfu
    ensures b.DiscoverServices(1, Found(Handles(1, 2, 3, 4, 0), 0, 0), TimeWrite(false, false))
              == b.(h := Handles(1, 2, 3, 4, 0), discovered := true, lastHash := 177573, queue := [DeleteAll], lastPoll := 0,
                    synced := [])
  {
    EmptyHash();
    var h := Handles(1, 2, 3, 4, 0);
    assert NoHandles.Updated(h) == h;
    var c := b.(h := h);
    assert c.SyncTime(1, TimeWrite(false, false)) == c;
    assert Snapshot([]) == [];
    var d := c.(discovered := true);
    assert d.Batch([]) == [DeleteAll] + [] == [DeleteAll];
    assert d.queue + d.Batch([]) == [DeleteAll];
    assert d.SyncReminders() == d.(lastHash := 177573, queue := [DeleteAll], synced := []);
  }

  lemma ConnectedState()
    ensures var s0 := Boot(60000, 1, Stale);
            && s0.Runs(Connecting())
            && s0.Exec(Connecting())
               == Sys(Booted(60000, 1).(connected := true, discovered := true, lastHash := 177573, queue := [DeleteAll],
                                        h := Handles(1, 2, 3, 4, 0), lastPoll := 0, lastWatchPoll := 1), Stale, 0)
  {
    var s0, acts := Boot(60000, 1, Stale), Connecting();
    FirstDiscovery(s0.Step(acts[0]).b);
    TwoActions(s0, acts[0], acts[1]);
    assert acts == [acts[0], acts[1]];
  }

  lemma OneAction(s: Sys, a: Action)
    requires s.Enabled(a)
    ensures s.Runs([a]) && s.Exec([a]) == s.Step(a)
  {
    assert [a][1..] == [];
    assert s.Step(a).Runs([]) && s.Step(a).Exec([]) == s.Step(a);
  }

  lemma TwoActions(s: Sys, a: Action, b: Action)
    requires s.Enabled(a) && s.Step(a).Enabled(b)
    ensures s.Runs([a, b]) && s.Exec([a, b]) == s.Step(a).Step(b)
  {
    OneAction(s.Step(a), b);
    assert [a, b][0] == a && [a, b][1..] == [b];
  }

  /**
    Both losses happen in runs from boot. A command in flight when the link drops, with nothing queued and no
    counted write, and a write the stack refuses, leave the hash cached over a watch that no snapshot explains;
    the dropped link also leaves the busy flag set.
   */
  lemma UnnoticedLosses()
    ensures var s := Boot(60000, 1, Stale).Exec(Connecting());
            && (var dropped := s.Step(QuietLoop(true)).Step(Drop(0));
                dropped.b.lastHash != 0 && Work(dropped.b) == [] && dropped.b.busy && !Agrees(dropped.b, dropped.watch))
            && (var refused := s.Step(QuietLoop(false));
                refused.b.lastHash != 0 && Work(refused.b) == [] && !Agrees(refused.b, refused.watch))
  {
    ConnectedState();
    var s := Boot(60000, 1, Stale).Exec(Connecting());
    var sent := s.Step(QuietLoop(true));
    assert sent.b.queue == [] && sent.b.air == [Sent(DeleteAll, 2)] && sent.b.busy && sent.b.lastHash == 177573;
    StaleIsNoSnapshot(sent.Step(Drop(0)).b);
    var refused := s.Step(QuietLoop(false));
    assert refused.b.queue == [] && refused.b.air == [];
    StaleIsNoSnapshot(refused.b);
  }

  /** The last upload decides its slot. */
  lemma UploadSnoc(rs: seq<ApiReminder>, w: WatchMap)
    requires rs != []
    ensures var init, last := rs[..|rs| - 1], rs[|rs| - 1];
            Replay(Uploads(rs), w) == Replay(Uploads(init), w)[last.reminderId := ToWatchReminder(last)]
  {
    var init, last := rs[..|rs| - 1], rs[|rs| - 1];
    var c := Command(WRITE_REMINDER, ToWatchReminder(last));
    assert Uploads(rs) == Uploads(init) + [c];
    ReplayConcat(Uploads(init), [c], w);
    assert [c][1..] == [];
  }

  lemma {:induction false} Overlay(rs: seq<ApiReminder>, w: WatchMap)
    ensures Replay(Uploads(rs), w) == w + RecordsOf(rs)
    decreases |rs|
  {
    if rs == [] {
      assert w + map[] == w;
    } else {
      UploadSnoc(rs, w);
      UploadSnoc(rs, map[]);
      Overlay(rs[..|rs| - 1], w);
    }
  }

  lemma {:induction false} RecordSlots(rs: seq<ApiReminder>)
    ensures RecordsOf(rs).Keys == set r | r in rs :: r.reminderId
    decreases |rs|
  {
    if rs != [] {
      UploadSnoc(rs, map[]);
      RecordSlots(rs[..|rs| - 1]);
      assert rs == rs[..|rs| - 1] + [rs[|rs| - 1]];
    }
  }

  /** Uploads overlay the old records, slot by slot. */
  lemma UploadsOverlay(rs: seq<ApiReminder>, w: WatchMap)
    ensures Replay(Uploads(rs), w) == w + RecordsOf(rs)
    ensures RecordsOf(rs).Keys == set r | r in rs :: r.reminderId
  {
    Overlay(rs, w);
    RecordSlots(rs);
  }

  /** Without the delete handle a batch is uploads only: it makes the watch right exactly when nothing there is stale. */
  lemma UploadsAloneSuffice(rs: seq<ApiReminder>, w: WatchMap)
    ensures Replay(Uploads(rs), w) == RecordsOf(rs) <==> w.Keys <= set r | r in rs :: r.reminderId
  {
    UploadsOverlay(rs, w);
    UploadsOverlay(rs, map[]);
    if w.Keys <= RecordsOf(rs).Keys {
      assert w + RecordsOf(rs) == RecordsOf(rs);
    } else {
      var id :| id in w.Keys && id !in RecordsOf(rs).Keys;
      assert id in w + RecordsOf(rs);
    }
  }

  /** A bridge that has synced nothing finds a snapshot to send exactly if it can upload and the hash is not "never synced". */
  lemma ZeroHashIsNeverSent(b: Bridge)
    requires b.lastHash == 0
    ensures b.SyncReminders() == b <==> b.h.upload == 0 || Djb2.Hash(Encode(Snapshot(b.api))) == 0
  {
    assert b.SyncDue() ==> b.SyncReminders().lastHash != 0;
  }

  /** Such a snapshot need not be empty. */
  lemma UnluckyIsNeverSent(b: Bridge)
    requires b.lastHash == 0 && b.api == [Djb2.Unlucky()]
    ensures b.SyncReminders() == b && Snapshot(b.api) != []
  {
    assert b.api[..0] == [];
    assert Snapshot(b.api) == [Djb2.Unlucky()];
    Djb2.HashCanBeTheSentinel();
    ZeroHashIsNeverSent(b);
  }
}
