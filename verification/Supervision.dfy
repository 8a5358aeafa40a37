/**
  Supervision of a firmware update by loop(), on a 32-bit millisecond clock that wraps: when reminder traffic may
  flow, how long the grace period after an update lasts, and when a stuck session is ended.
 */
module Supervision {
  import opened Bytes
  import opened Bridges
  import opened DfuClients
  import SyncProtocol
  import WireFormat

  datatype When = Never | At(t: nat)

  predicate Ended(b: Bridge) { b.dfu.state.COMPLETE? || b.dfu.state.FAILED? }

  /**
    The bridge in true time. `seen`: the first loop() call, among those that saw the current session active, whose clock
    did not read 0; `ended`: the last call that saw COMPLETE or FAILED.
   */
  datatype Timed = Timed(b: Bridge, clock: nat, seen: When, ended: When)
  {
    /** An event `gap` ms after the last one: its clock reading is the true time modulo 2^32. */
    predicate Timely(gap: nat, e: Event)
    {
      match e
      case Loop(now, _) => now == Wrap(clock + gap)
      case Open(now) => now == Wrap(clock + gap)
      case Discover(now, _, _) => now == Wrap(clock + gap)
      case _ => true
    }

    function Step(gap: nat, e: Event): Timed
      requires Timely(gap, e)
    {
      var t := clock + gap;
      match e
      case Loop(now, _) =>
        Timed(b.Step(e), t,
              if !b.DfuActive() || b.TimedOut(now) then Never else if seen.Never? && now != 0 then At(t) else seen,
              if Ended(b) then At(t) else ended)
      case _ => Timed(b.Step(e), t, seen, ended)
    }

    predicate Runs(es: seq<(nat, Event)>)
      decreases |es|
    {
      es == [] || (Timely(es[0].0, es[0].1) && Step(es[0].0, es[0].1).Runs(es[1..]))
    }

    function Exec(es: seq<(nat, Event)>): Timed
      requires Runs(es)
      decreases |es|
    {
      if es == [] then this else Step(es[0].0, es[0].1).Exec(es[1..])
    }
  }

  function Boot(pollInterval: word, start: nat): Timed
  {
    Timed(Booted(pollInterval, Wrap(start)), start, Never, Never)
  }

  // ---------------------------------------------------------------- wrapping arithmetic

  /** Differences of clock readings are differences of true times, modulo 2^32. */
  lemma ReadingsSubtract(t: nat, t0: nat)
    requires t0 <= t
    ensures Wrap(Wrap(t) - Wrap(t0)) == Wrap(t - t0)
    ensures Wrap(t - t0) <= t - t0
    ensures t - t0 < WORD ==> Wrap(t - t0) == t - t0
  {
    var q, q0 := t / WORD, t0 / WORD;
    assert t - t0 == WORD * (q - q0) + (Wrap(t) - Wrap(t0));
    WrapShift(Wrap(t) - Wrap(t0), q - q0);
  }

  // ---------------------------------------------------------------- the loop's stages

  /** What reaches the queue, the poll and the pairing check: an update client that is IDLE. */
  function ClearOfDfu(b: Bridge, now: word): Bridge { b.PastSupervision(now).AfterDfu(now).EndGrace(now) }

  lemma OpenIsIdle(b: Bridge, now: word)
    requires !b.DfuActive() || b.TimedOut(now)
    ensures ClearOfDfu(b, now).dfu.state.IDLE?
  {
  }

  lemma {:induction false} DeliverFrame(b: Bridge, notes: seq<Note>)
    ensures var c := b.Deliver(notes);
            c.queue == b.queue && c.dfu == b.dfu && SameTimers(b, c)
    decreases |notes|
  {
    if notes != [] {
      if notes[0].message == [] {
        DeliverFrame(b, notes[1..]);
      } else if b.h.ans != 0 {
        DeliverFrame(b.SendNotification(notes[0].message, notes[0].accepted).(marked := b.marked + [notes[0].id]), notes[1..]);
      }
    }
  }

  ghost predicate SameTimers(b: Bridge, c: Bridge)
  {
    c.dfuStart == b.dfuStart && c.postDfu == b.postDfu && c.postDfuTime == b.postDfuTime
  }

  lemma PollFrame(b: Bridge, now: word, p: Poll)
    ensures var c := b.PollIfDue(now, p);
            SameTimers(b, c) && c.dfu == b.dfu && (c.queue != b.queue ==> b.dfu.state.IDLE? && !b.postDfu)
  {
    if p.Polled? {
      DeliverFrame(b.(lastPoll := now, api := p.reminders), p.notes);
    }
  }

  lemma QueueFrame(b: Bridge, accepted: bool)
    ensures var c := b.ProcessQueue(accepted);
            && SameTimers(b, c) && c.dfu == b.dfu
            && (c.queue == b.queue || (b.queue != [] && c.queue == b.queue[1..]))
  {
  }

  lemma EndFrame(b: Bridge, now: word, i: LoopInput)
    ensures var c := b.RefreshWatch(now, i.time).CheckPairing(i.pair);
            && SameTimers(b, c) && c.queue == b.queue
            && (c.dfu == b.dfu || (i.pair.Reply? && c.dfu == b.dfu.Begin(i.pair.bin, i.pair.dat)))
  {
  }

  /** The stages after the DFU block leave the update client alone until the pairing check may start a new session. */
  lemma LoopFrame(b: Bridge, now: word, i: LoopInput)
    requires !b.DfuActive() || b.TimedOut(now)
    ensures var o, c := ClearOfDfu(b, now), b.LoopStep(now, i);
            && SameTimers(o, c)
            && (c.dfu == o.dfu || (i.pair.Reply? && c.dfu == o.dfu.Begin(i.pair.bin, i.pair.dat)))
            && (o.postDfu ==> c.queue == o.queue || (o.queue != [] && c.queue == o.queue[1..]))
  {
    var o := ClearOfDfu(b, now);
    QueueFrame(o, i.accepted);
    PollFrame(o.ProcessQueue(i.accepted), now, i.poll);
    EndFrame(o.ProcessQueue(i.accepted).PollIfDue(now, i.poll), now, i);
  }

  // ---------------------------------------------------------------- the invariant

  /**
    The bridge's timers are the true times of what they stand for; out of grace means the grace time has passed, and
    did not begin at the reading 0.
   */
  ghost predicate Inv(s: Timed)
  {
    && (s.b.dfuStart != 0 <==> s.seen.At?)
    && (s.seen.At? ==> s.seen.t <= s.clock && s.b.dfuStart == Wrap(s.seen.t))
    && (s.ended.At? ==> s.ended.t <= s.clock)
    && (s.b.postDfu ==> s.ended.At? && s.b.postDfuTime == Wrap(s.ended.t))
    && (s.ended.At? && !s.b.postDfu ==> s.clock - s.ended.t > GRACE_MS && Wrap(s.ended.t) != 0)
  }

  lemma LoopKeepsInv(s: Timed, gap: nat, e: Event)
    requires Inv(s) && e.Loop? && s.Timely(gap, e)
    ensures Inv(s.Step(gap, e))
  {
    if s.ended.At? { ReadingsSubtract(s.clock + gap, s.ended.t); }
    if !s.b.DfuActive() || s.b.TimedOut(e.now) {
      ClearedKeepsInv(s, gap, e);
    }
  }

  lemma ClearedKeepsInv(s: Timed, gap: nat, e: Event)
    requires Inv(s) && e.Loop? && s.Timely(gap, e) && (!s.b.DfuActive() || s.b.TimedOut(e.now))
    requires s.ended.At? ==> Wrap(Wrap(s.clock + gap) - Wrap(s.ended.t)) <= s.clock + gap - s.ended.t
    ensures Inv(s.Step(gap, e))
  {
    LoopFrame(s.b, e.now, e.input);
    ClearTimers(s.b, e.now);
    var c := s.b.Step(e);
    assert SameTimers(ClearOfDfu(s.b, e.now), c);
    assert c.dfuStart == 0 && s.Step(gap, e).seen.Never?;
  }

  /** The timers once the DFU block has been passed. */
  lemma ClearTimers(b: Bridge, now: word)
    requires !b.DfuActive() || b.TimedOut(now)
    ensures var o := ClearOfDfu(b, now);
            var since := if Ended(b) then now else b.postDfuTime;
            var over := since > 0 && Wrap(now - since) > GRACE_MS;
            && o.dfuStart == 0 && o.queue == b.queue
            && o.postDfu == ((Ended(b) || b.postDfu) && !over)
            && (o.postDfu ==> o.postDfuTime == since)
  {
    var p := b.PastSupervision(now);
    assert p.dfuStart == 0 && p.queue == b.queue && p.postDfu == b.postDfu && p.postDfuTime == b.postDfuTime;
    assert Ended(p) == Ended(b);
  }

  lemma UseServiceFrame(b: Bridge)
    ensures var c := b.UseReminderService();
            && SameTimers(b, c) && c.dfu == b.dfu && c.marked == b.marked
            && (c.queue != b.queue ==> b.dfu.state.IDLE? && !b.postDfu)
  {
  }

  lemma SyncTimeFrame(b: Bridge, now: word, t: TimeWrite)
    ensures var c := b.SyncTime(now, t);
            SameTimers(b, c) && c.dfu == b.dfu && c.marked == b.marked && c.queue == b.queue
  {
  }

  lemma DiscoverFrame(b: Bridge, now: word, f: Found, t: TimeWrite)
    ensures var c := b.DiscoverServices(now, f, t);
            && SameTimers(b, c) && c.marked == b.marked
            && (c.queue != b.queue ==> b.dfu.state.IDLE? && !b.postDfu && c.dfu == b.dfu)
  {
    var c := b.(h := b.h.Updated(f.h));
    SyncTimeFrame(c, now, t);
    UseServiceFrame(c.SyncTime(now, t));
  }

  lemma StepKeepsInv(s: Timed, gap: nat, e: Event)
    requires Inv(s) && s.Timely(gap, e)
    ensures Inv(s.Step(gap, e))
  {
    match e
    case Loop(_, _) => LoopKeepsInv(s, gap, e);
    case Discover(now, f, t) => DiscoverFrame(s.b, now, f, t);
    case _ =>
  }

  lemma {:induction false} RunKeepsInv(s: Timed, es: seq<(nat, Event)>)
    requires Inv(s) && s.Runs(es)
    ensures Inv(s.Exec(es))
    decreases |es|
  {
    if es != [] {
      StepKeepsInv(s, es[0].0, es[0].1);
      RunKeepsInv(s.Step(es[0].0, es[0].1), es[1..]);
    }
  }

  // ---------------------------------------------------------------- main results

  /** The event queues reminder commands: the queue it leaves is not what draining alone would have left. */
  predicate QueuesBatch(b: Bridge, e: Event)
  {
    var c := b.Step(e);
    match e
    case Loop(now, i) =>
      c.queue != if b.DfuActive() && !b.TimedOut(now) then b.queue else ClearOfDfu(b, now).ProcessQueue(i.accepted).queue
    case Disconnected => c.queue != b.queue && c.queue != []
    case _ => c.queue != b.queue
  }

  /**
    In every run, an event that queues reminder commands comes more than 120000 ms after an update was last seen
    COMPLETE or FAILED, outside the grace period; and it is a discovery with the update client IDLE or a loop() call
    that does not leave an update running and reaches the queue with the client IDLE.
   */
  lemma {:induction false} BatchesWaitForGrace(pollInterval: word, start: nat, es: seq<(nat, Event)>, gap: nat, e: Event)
    requires Boot(pollInterval, start).Runs(es) && Boot(pollInterval, start).Exec(es).Timely(gap, e)
    ensures var s := Boot(pollInterval, start).Exec(es);
            var s' := s.Step(gap, e);
            QueuesBatch(s.b, e) ==>
              && !s'.b.postDfu
              && (s'.ended.At? ==> s'.clock - s'.ended.t > GRACE_MS)
              && (if e.Loop? then (!s.b.DfuActive() || s.b.TimedOut(e.now)) && ClearOfDfu(s.b, e.now).dfu.state.IDLE?
                  else e.Discover? && s.b.dfu.state.IDLE?)
  {
    RunKeepsInv(Boot(pollInterval, start), es);
    var s := Boot(pollInterval, start).Exec(es);
    StepKeepsInv(s, gap, e);
    BatchMeansIdle(s.b, e);
  }

  lemma BatchMeansIdle(b: Bridge, e: Event)
    ensures QueuesBatch(b, e) ==>
              && !b.Step(e).postDfu
              && (if e.Loop? then (!b.DfuActive() || b.TimedOut(e.now)) && ClearOfDfu(b, e.now).dfu.state.IDLE?
                  else e.Discover? && b.dfu.state.IDLE?)
  {
    match e
    case Loop(now, i) => if QueuesBatch(b, e) { LoopBatchMeansIdle(b, now, i); }
    case Discover(now, f, t) => DiscoverFrame(b, now, f, t);
    case _ =>
  }

  lemma LoopBatchMeansIdle(b: Bridge, now: word, i: LoopInput)
    requires QueuesBatch(b, Loop(now, i))
    ensures !b.LoopStep(now, i).postDfu && (!b.DfuActive() || b.TimedOut(now)) && ClearOfDfu(b, now).dfu.state.IDLE?
  {
    if b.DfuActive() && !b.TimedOut(now) {
      SyncProtocol.SuperviseContinues(b, now);
    } else {
      var q := ClearOfDfu(b, now).ProcessQueue(i.accepted);
      QueueFrame(ClearOfDfu(b, now), i.accepted);
      PollFrame(q, now, i.poll);
      EndFrame(q.PollIfDue(now, i.poll), now, i);
    }
  }

  /** A loop() call past the DFU block sends: a command is queued for a live link with the service found, and not busy. */
  predicate Sends(b: Bridge, now: word, i: LoopInput)
  {
    && (!b.DfuActive() || b.TimedOut(now)) && b.connected && b.discovered && !b.busy
    && b.queue != [] && b.HandleFor(b.queue[0]) != 0 && i.accepted
  }

  /**
    A queued command is written exactly by a loop() call that has found no update running, on a live link on which the
    reminder service was found, with the busy flag clear; it is the head of the queue, and no update is started before it.
   */
  lemma CommandsOnlyWhenIdle(b: Bridge, e: Event)
    requires !e.Disconnected?
    ensures SyncProtocol.Commands(b.Step(e).air)
              == SyncProtocol.Commands(b.air) + if e.Loop? && Sends(b, e.now, e.input) then [b.queue[0]] else []
    ensures e.Loop? && Sends(b, e.now, e.input) ==> ClearOfDfu(b, e.now).dfu.state.IDLE?
  {
    match e
    case Loop(now, i) =>
      if b.DfuActive() && !b.TimedOut(now) {
        SyncProtocol.SuperviseContinues(b, now);
        SameCommands(b, b.Supervise(now));
      } else {
        OpenIsIdle(b, now);
        LoopCommands(b, now, i);
      }
    case Discover(now, f, t) => DiscoverCommands(b, now, f, t);
    case Notified(h, data) =>
      SyncProtocol.FirmwareContinues(b, b.dfu.Step(Notify(h, data)));
      SameCommands(b, b.Step(e));
    case _ =>
  }

  lemma SameCommands(b: Bridge, c: Bridge)
    requires SyncProtocol.Continues(b, c)
    ensures SyncProtocol.Commands(c.air) == SyncProtocol.Commands(b.air)
  {
    var n := |SyncProtocol.Commands(b.air)|;
    assert SyncProtocol.Work(b)[..n] == SyncProtocol.Commands(b.air);
    assert |SyncProtocol.Commands(c.air)| == n;
    assert SyncProtocol.Work(c)[..n] == SyncProtocol.Commands(c.air);
  }

  lemma PollCommands(b: Bridge, now: word, p: Poll)
    ensures SyncProtocol.Commands(b.PollIfDue(now, p).air) == SyncProtocol.Commands(b.air)
  {
    if p.Polled? {
      var c := b.(lastPoll := now, api := p.reminders);
      SyncProtocol.DeliverContinues(c, p.notes);
      SameCommands(c, c.Deliver(p.notes));
    }
  }

  lemma LoopCommands(b: Bridge, now: word, i: LoopInput)
    requires !b.DfuActive() || b.TimedOut(now)
    ensures var c := b.LoopStep(now, i);
            SyncProtocol.Commands(c.air) == SyncProtocol.Commands(b.air) + if Sends(b, now, i) then [b.queue[0]] else []
  {
    var o := ClearOfDfu(b, now);
    EarlyLink(b, now);
    QueueCommands(o, i.accepted);
    var q := o.ProcessQueue(i.accepted);
    PollCommands(q, now, i.poll);
    var p := q.PollIfDue(now, i.poll);
    SyncProtocol.RefreshContinues(p, now, i.time);
    SameCommands(p, p.RefreshWatch(now, i.time));
    var r := p.RefreshWatch(now, i.time);
    SyncProtocol.PairingContinues(r, i.pair);
    SameCommands(r, r.CheckPairing(i.pair));
  }

  /** What the DFU block leaves of the link and the queue. */
  lemma EarlyLink(b: Bridge, now: word)
    requires !b.DfuActive() || b.TimedOut(now)
    ensures var o := ClearOfDfu(b, now);
            && o.air == b.air && o.queue == b.queue && o.h == b.h
            && o.connected == b.connected && o.discovered == b.discovered && o.busy == b.busy
  {
    SyncProtocol.EarlyBystander(b, now);
    AfterLink(b.PastSupervision(now), now);
    EndLink(b.PastSupervision(now).AfterDfu(now), now);
  }

  ghost predicate SameLink(b: Bridge, c: Bridge)
  {
    c.queue == b.queue && c.connected == b.connected && c.discovered == b.discovered && c.busy == b.busy
  }

  lemma AfterLink(b: Bridge, now: word)
    ensures SameLink(b, b.AfterDfu(now))
  {
  }

  lemma EndLink(b: Bridge, now: word)
    ensures SameLink(b, b.EndGrace(now))
  {
  }

  lemma QueueCommands(b: Bridge, accepted: bool)
    ensures var sends := b.connected && b.discovered && !b.busy && b.queue != [] && b.HandleFor(b.queue[0]) != 0 && accepted;
            SyncProtocol.Commands(b.ProcessQueue(accepted).air)
              == SyncProtocol.Commands(b.air) + if sends then [b.queue[0]] else []
  {
    var c := b.ProcessQueue(accepted);
    if c.air != b.air {
      var cmd := b.queue[0];
      SyncProtocol.CommandsConcat(b.air, [Sent(cmd, b.HandleFor(cmd))]);
    } else {
      assert SyncProtocol.Commands(b.air) + [] == SyncProtocol.Commands(b.air);
    }
  }

  /** An update is begun only from IDLE and on request. */
  lemma UpdatesStartFromIdle(b: Bridge, r: PairReply)
    ensures b.CheckPairing(r).dfu == if r.Reply? && r.dfuRequested && b.dfu.state.IDLE? then b.dfu.Begin(r.bin, r.dat) else b.dfu
  {
  }

  // ---------------------------------------------------------------- after a drop

  /** No link, or none on which the service was found: no command goes out. */
  ghost predicate Linkless(b: Bridge) { (!b.connected || !b.discovered) && SyncProtocol.Commands(b.air) == [] }

  lemma LinkFrame(b: Bridge, now: word, i: LoopInput)
    ensures b.LoopStep(now, i).connected == b.connected && b.LoopStep(now, i).discovered == b.discovered
  {
    if b.DfuActive() && !b.TimedOut(now) {
      assert b.LoopStep(now, i) == b.Supervise(now);
    } else {
      EarlyLink(b, now);
      var o := ClearOfDfu(b, now);
      PollLink(o.ProcessQueue(i.accepted), now, i.poll);
      EndStagesLink(o.ProcessQueue(i.accepted).PollIfDue(now, i.poll), now, i);
    }
  }

  lemma {:induction false} DeliverLink(b: Bridge, notes: seq<Note>)
    ensures b.Deliver(notes).connected == b.connected && b.Deliver(notes).discovered == b.discovered
    decreases |notes|
  {
    if notes != [] {
      if notes[0].message == [] {
        DeliverLink(b, notes[1..]);
      } else if b.h.ans != 0 {
        DeliverLink(b.SendNotification(notes[0].message, notes[0].accepted).(marked := b.marked + [notes[0].id]), notes[1..]);
      }
    }
  }

  lemma PollLink(b: Bridge, now: word, p: Poll)
    ensures b.PollIfDue(now, p).connected == b.connected && b.PollIfDue(now, p).discovered == b.discovered
  {
    if p.Polled? { DeliverLink(b.(lastPoll := now, api := p.reminders), p.notes); }
  }

  lemma EndStagesLink(b: Bridge, now: word, i: LoopInput)
    ensures var c := b.RefreshWatch(now, i.time).CheckPairing(i.pair); c.connected == b.connected && c.discovered == b.discovered
  {
  }

  lemma LinklessStep(b: Bridge, e: Event)
    requires Linkless(b)
    requires e.Open? ==> !b.discovered
    requires !e.Discover? || (!b.connected && b.Step(e).connected == b.connected)
    ensures Linkless(b.Step(e))
  {
    if !e.Disconnected? { CommandsOnlyWhenIdle(b, e); }
    if e.Loop? { LinkFrame(b, e.now, e.input); }
  }

  lemma DiscoverLink(b: Bridge, now: word, f: Found, t: TimeWrite)
    ensures b.DiscoverServices(now, f, t).connected == b.connected
  {
  }

  predicate NoOpen(es: seq<Event>) { forall e :: e in es ==> !e.Open? }

  predicate NoDiscovery(es: seq<Event>) { forall e :: e in es ==> !e.Discover? }

  lemma {:induction false} UntilOpen(b: Bridge, es: seq<Event>)
    requires !b.connected && SyncProtocol.Commands(b.air) == [] && NoOpen(es)
    ensures SyncProtocol.Commands(After(b, es).air) == []
    decreases |es|
  {
    if es != [] {
      var e := es[0];
      assert e in es;
      if e.Discover? { DiscoverLink(b, e.now, e.found, e.time); }
      if e.Loop? { LinkFrame(b, e.now, e.input); }
      LinklessStep(b, e);
      UntilOpen(b.Step(e), es[1..]);
    }
  }

  lemma {:induction false} UntilDiscovery(b: Bridge, es: seq<Event>)
    requires !b.discovered && SyncProtocol.Commands(b.air) == [] && NoDiscovery(es)
    ensures SyncProtocol.Commands(After(b, es).air) == []
    decreases |es|
  {
    if es != [] {
      var e := es[0];
      assert e in es;
      if e.Loop? { LinkFrame(b, e.now, e.input); }
      LinklessStep(b, e);
      UntilDiscovery(b.Step(e), es[1..]);
    }
  }

  /** After a drop no command is written until a connection has been opened and a discovery made on it. */
  lemma NoCommandsUntilRelinked(b: Bridge, es: seq<Event>)
    requires NoOpen(es) || NoDiscovery(es)
    ensures SyncProtocol.Commands(After(b.OnDisconnect(), es).air) == []
  {
    if NoOpen(es) { UntilOpen(b.OnDisconnect(), es); } else { UntilDiscovery(b.OnDisconnect(), es); }
  }

  lemma DiscoverCommands(b: Bridge, now: word, f: Found, t: TimeWrite)
    ensures SyncProtocol.Commands(b.DiscoverServices(now, f, t).air) == SyncProtocol.Commands(b.air)
  {
    var c := b.(h := b.h.Updated(f.h));
    SyncProtocol.FirmwareContinues(c, b.dfu.ServicesDiscovered(f.ctrl, f.pkt));
    SameCommands(c, c.WithDfu(b.dfu.ServicesDiscovered(f.ctrl, f.pkt)));
    SyncProtocol.SyncTimeContinues(c, now, t);
    SameCommands(c, c.SyncTime(now, t));
  }

  /**
    In every run, a loop() call on an active session ends it exactly when some call that saw it active read other than
    0 and, this one being less than 2^32 ms after the first such call, more than 300000 ms have passed since: it resets
    the update client, and goes on to what it does without an update. Otherwise it only lets the update continue.
   */
  lemma {:induction false} StuckSessionsEnd(pollInterval: word, start: nat, es: seq<(nat, Event)>, gap: nat, now: word, i: LoopInput)
    requires Boot(pollInterval, start).Runs(es) && Boot(pollInterval, start).Exec(es).Timely(gap, Loop(now, i))
    ensures var s := Boot(pollInterval, start).Exec(es);
            s.b.DfuActive() ==>
              && (s.seen.Never? ==> EndsExactly(s.b, now, i, false))
              && (s.seen.At? && s.clock + gap - s.seen.t < WORD ==>
                    EndsExactly(s.b, now, i, s.clock + gap - s.seen.t > DFU_TIMEOUT_MS))
  {
    RunKeepsInv(Boot(pollInterval, start), es);
    var s := Boot(pollInterval, start).Exec(es);
    if s.b.DfuActive() {
      TimesOutExactly(s, gap, now);
      ActiveLoop(s.b, now, i);
    }
  }

  lemma TimesOutExactly(s: Timed, gap: nat, now: word)
    requires Inv(s) && now == Wrap(s.clock + gap) && s.b.DfuActive()
    ensures s.seen.Never? ==> !s.b.TimedOut(now)
    ensures s.seen.At? && s.clock + gap - s.seen.t < WORD ==>
              s.b.TimedOut(now) == (s.clock + gap - s.seen.t > DFU_TIMEOUT_MS)
  {
    if s.seen.At? { ReadingsSubtract(s.clock + gap, s.seen.t); }
  }

  /** A loop() call on an active session: it ends the session, and may start another, or only lets it continue. */
  ghost predicate EndsExactly(b: Bridge, now: word, i: LoopInput, late: bool)
  {
    var c := b.Step(Loop(now, i));
    if late then
      c.dfu == b.dfu.ResetAll() || (i.pair.Reply? && c.dfu == b.dfu.ResetAll().Begin(i.pair.bin, i.pair.dat))
    else
      c == b.(dfuStart := if b.dfuStart == 0 then now else b.dfuStart).WithDfu(b.dfu.Step(Process))
  }

  lemma ActiveLoop(b: Bridge, now: word, i: LoopInput)
    requires b.DfuActive()
    ensures EndsExactly(b, now, i, b.TimedOut(now))
  {
    if b.TimedOut(now) {
      LoopFrame(b, now, i);
      EndedClient(b, now);
    }
  }

  lemma EndedClient(b: Bridge, now: word)
    requires b.TimedOut(now)
    ensures ClearOfDfu(b, now).dfu == b.dfu.ResetAll()
  {
    assert b.PastSupervision(now).dfu == b.dfu.ResetAll();
  }

  /**
    In every run, a loop() call that gets past the DFU block less than 2^32 ms after an update was last seen COMPLETE
    or FAILED is in the grace period exactly while no more than 120000 ms have passed, or if that call read 0.
   */
  lemma {:induction false} GraceEndsOnTime(pollInterval: word, start: nat, es: seq<(nat, Event)>, gap: nat, now: word, i: LoopInput)
    requires Boot(pollInterval, start).Runs(es) && Boot(pollInterval, start).Exec(es).Timely(gap, Loop(now, i))
    requires var s := Boot(pollInterval, start).Exec(es); !s.b.DfuActive() || s.b.TimedOut(now)
    ensures GraceIsExact(Boot(pollInterval, start).Exec(es).Step(gap, Loop(now, i)))
  {
    RunKeepsInv(Boot(pollInterval, start), es);
    GraceAtLoop(Boot(pollInterval, start).Exec(es), gap, now, i);
  }

  ghost predicate GraceIsExact(s: Timed)
  {
    s.ended.At? && s.clock - s.ended.t < WORD ==>
      (s.b.postDfu <==> s.clock - s.ended.t <= GRACE_MS || Wrap(s.ended.t) == 0)
  }

  lemma GraceAtLoop(s: Timed, gap: nat, now: word, i: LoopInput)
    requires Inv(s) && s.Timely(gap, Loop(now, i)) && (!s.b.DfuActive() || s.b.TimedOut(now))
    ensures GraceIsExact(s.Step(gap, Loop(now, i)))
  {
    LoopKeepsInv(s, gap, Loop(now, i));
    GraceTimer(s.b, now, i);
    var ended := s.Step(gap, Loop(now, i)).ended;
    if ended.At? { ReadingsSubtract(s.clock + gap, ended.t); }
  }

  /** If the grace period is on, its time, counted from the reading it began at, is not over. */
  ghost predicate InTime(b: Bridge, now: word)
  {
    b.postDfu ==> b.postDfuTime == 0 || Wrap(now - b.postDfuTime) <= GRACE_MS
  }

  lemma LoopTimers(b: Bridge, now: word, i: LoopInput)
    requires !b.DfuActive() || b.TimedOut(now)
    ensures SameTimers(ClearOfDfu(b, now), b.LoopStep(now, i))
  {
    LoopFrame(b, now, i);
  }

  lemma GraceTimer(b: Bridge, now: word, i: LoopInput)
    requires !b.DfuActive() || b.TimedOut(now)
    ensures InTime(b.LoopStep(now, i), now)
  {
    LoopTimers(b, now, i);
  }

  /** A session ended by the time-out starts no grace period: it goes to IDLE, not to FAILED. */
  lemma TimeOutStartsNoGrace(b: Bridge, now: word, i: LoopInput)
    requires b.TimedOut(now) && !b.postDfu
    ensures !b.LoopStep(now, i).postDfu
  {
    ClearTimers(b, now);
    LoopFrame(b, now, i);
  }

  // ---------------------------------------------------------------- the reading 0

  function After(b: Bridge, es: seq<Event>): Bridge
    decreases |es|
  {
    if es == [] then b else After(b.Step(es[0]), es[1..])
  }

  predicate NoUpdateRequested(es: seq<Event>)
  {
    forall e :: e in es ==> e.Loop? ==> !(e.input.pair.Reply? && e.input.pair.dfuRequested)
  }

  /** In grace from a clock reading of 0, which the bridge takes for "no grace period to end". */
  ghost predicate InEndlessGrace(b: Bridge) { b.postDfu && b.postDfuTime == 0 && b.dfu.state.IDLE? }

  lemma EndlessGraceLoop(b: Bridge, now: word, i: LoopInput)
    requires InEndlessGrace(b) && !(i.pair.Reply? && i.pair.dfuRequested)
    ensures InEndlessGrace(b.LoopStep(now, i)) && !QueuesBatch(b, Loop(now, i))
  {
    BatchMeansIdle(b, Loop(now, i));
    LoopFrame(b, now, i);
    var q := ClearOfDfu(b, now).ProcessQueue(i.accepted);
    QueueFrame(ClearOfDfu(b, now), i.accepted);
    PollFrame(q, now, i.poll);
  }

  lemma EndlessGraceStays(b: Bridge, e: Event)
    requires InEndlessGrace(b) && NoUpdateRequested([e])
    ensures InEndlessGrace(b.Step(e)) && !QueuesBatch(b, e)
  {
    assert e in [e];
    match e
    case Loop(now, i) => EndlessGraceLoop(b, now, i);
    case Discover(now, f, t) =>
      DiscoverFrame(b, now, f, t);
    case _ =>
  }

  /**
    A grace period that begins at the reading 0 does not end, and no reminder command is queued, over any events until
    another update is requested.
   */
  lemma {:induction false} GraceFromZeroNeverEnds(b: Bridge, es: seq<Event>)
    requires InEndlessGrace(b) && NoUpdateRequested(es)
    ensures InEndlessGrace(After(b, es))
    ensures forall n :: 0 <= n < |es| ==> !QueuesBatch(After(b, es[..n]), es[n])
    decreases |es|
  {
    if es != [] {
      assert es[0] in es;
      EndlessGraceStays(b, es[0]);
      GraceFromZeroNeverEnds(b.Step(es[0]), es[1..]);
      forall n | 0 <= n < |es|
        ensures !QueuesBatch(After(b, es[..n]), es[n])
      {
        if n > 0 {
          assert es[..n][1..] == es[1..][..n - 1] && es[n] == es[1..][n - 1];
        }
      }
    }
  }

  function Idling(pair: PairReply): LoopInput { LoopInput(true, PollFailed, TimeWrite(false, false), pair) }

  /**
    It is reached: an update requested 5 ms before the clock wraps fails at its first download, and the next loop()
    call, which sees it FAILED, reads 0.
   */
  lemma GraceFromZeroIsReachable()
    ensures var s0, e := Boot(60000, WORD - 10), Loop(WORD - 5, Idling(Reply(true, [], [])));
            && s0.Timely(5, e) && s0.Step(5, e).b.dfu.state.FAILED? && Wrap(s0.Step(5, e).clock + 5) == 0
            && InEndlessGrace(s0.Step(5, e).b.Step(Loop(0, Idling(NotPolled))))
  {
  }

  /** A loop() call that reads 0 while no start is stored stores none, and no call then ends the session. */
  lemma ReadingZeroIsNotStored(b: Bridge, now: word, i: LoopInput, j: LoopInput)
    requires b.DfuActive() && b.dfuStart == 0
    ensures var c := b.LoopStep(0, i);
            c.dfuStart == 0 && (c.DfuActive() ==> EndsExactly(c, now, j, false))
  {
    if b.Supervise(0).DfuActive() { ActiveLoop(b.LoopStep(0, i), now, j); }
  }

  /**
    It delays the time-out: an update requested 5 ms before the clock wraps is first seen active by a loop() call that
    reads 0, and is still running, its time only now stored, at a call 300001 ms later.
   */
  lemma SessionOutlivesTimeOut()
    ensures var s0, e := Boot(60000, WORD - 10), Loop(WORD - 5, Idling(Reply(true, [1], [1])));
            && s0.Timely(5, e) && s0.Step(5, e).b.DfuActive()
            && var s1 := s0.Step(5, e);
            && s1.Timely(5, Loop(0, Idling(NotPolled))) && s1.Step(5, Loop(0, Idling(NotPolled))).b.DfuActive()
            && var s2 := s1.Step(5, Loop(0, Idling(NotPolled)));
            && s2.Timely(300001, Loop(300001, Idling(NotPolled)))
            && s2.Step(300001, Loop(300001, Idling(NotPolled))).b == s2.b.(dfuStart := 300001)
  {
    var s0, e := Boot(60000, WORD - 10), Loop(WORD - 5, Idling(Reply(true, [1], [1])));
    RequestConnects(s0.b, WORD - 5);
    Waits(s0.Step(5, e));
  }

  /** A session just requested, and a clock 5 ms before it reads 0. */
  lemma Waits(s: Timed)
    requires s.b.dfu.state.CONNECTING? && s.b.dfuStart == 0 && s.clock == WORD - 5
    ensures s.Timely(5, Loop(0, Idling(NotPolled)))
    ensures var u := s.Step(5, Loop(0, Idling(NotPolled)));
            && u.b.DfuActive() && u.Timely(300001, Loop(300001, Idling(NotPolled)))
            && u.Step(300001, Loop(300001, Idling(NotPolled))).b == u.b.(dfuStart := 300001)
  {
    assert Wrap(WORD) == 0 && Wrap(WORD + 300001) == 300001;
    ConnectingWaits(s.b, 0, Idling(NotPolled));
    ConnectingWaits(s.b.(dfuStart := 0), 300001, Idling(NotPolled));
  }

  lemma RequestConnects(b: Bridge, now: word)
    requires b.dfu.state.IDLE? && !b.postDfu
    ensures var c := b.LoopStep(now, Idling(Reply(true, [1], [1]))); c.dfu.state.CONNECTING? && c.dfuStart == 0
  {
    LoopFrame(b, now, Idling(Reply(true, [1], [1])));
    OpenIsIdle(b, now);
    ClearTimers(b, now);
    var q := ClearOfDfu(b, now).ProcessQueue(true);
    QueueFrame(ClearOfDfu(b, now), true);
    PollFrame(q, now, PollFailed);
  }

  lemma ConnectingWaits(b: Bridge, now: word, i: LoopInput)
    requires b.dfu.state.CONNECTING? && b.dfuStart == 0
    ensures b.LoopStep(now, i) == b.(dfuStart := now)
  {
    assert b.air + [] == b.air;
  }

  /**
    The end of the grace period makes the next sync start over: the loop() call that ends it leaves either no cached
    hash, or the whole current snapshot queued behind what was left.
   */
  lemma GraceEndForcesSync(b: Bridge, now: word, i: LoopInput)
    requires b.dfu.state.IDLE? && b.postDfu && b.postDfuTime > 0 && Wrap(now - b.postDfuTime) > GRACE_MS
    ensures var c, q := b.LoopStep(now, i), ClearOfDfu(b, now).ProcessQueue(i.accepted);
            && !c.postDfu
            && (c.lastHash == 0 || c.queue == q.queue + c.Batch(WireFormat.Snapshot(c.api)))
  {
    var o := ClearOfDfu(b, now);
    assert o.lastHash == 0 && !o.postDfu;
    var q := o.ProcessQueue(i.accepted);
    FreshPoll(q, now, i.poll);
    LoopFrame(b, now, i);
  }

  lemma FreshPoll(b: Bridge, now: word, p: Poll)
    requires b.lastHash == 0
    ensures var c := b.PollIfDue(now, p);
            c.lastHash == 0 || c.queue == b.queue + c.Batch(WireFormat.Snapshot(c.api))
  {
    SyncProtocol.PollContinues(b, now, p);
  }
}
