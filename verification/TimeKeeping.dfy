/** When the bridge writes the time to the watch. */
module TimeKeeping {
  import opened Bytes
  import opened Bridges
  import opened SyncProtocol
  import DfuClients
  import Supervision

  /** Time writes on the link. */
  function Clocks(air: seq<Out>): nat { if air == [] then 0 else (if air[0].Time? then 1 else 0) + Clocks(air[1..]) }

  lemma {:induction false} ClocksConcat(a: seq<Out>, b: seq<Out>)
    ensures Clocks(a + b) == Clocks(a) + Clocks(b)
    decreases |a|
  {
    if a == [] {
      assert a + b == b;
    } else {
      assert (a + b)[0] == a[0] && (a + b)[1..] == a[1..] + b;
      ClocksConcat(a[1..], b);
    }
  }

  lemma {:induction false} NoClocks(air: seq<Out>)
    requires forall o :: o in air ==> !o.Time?
    ensures Clocks(air) == 0
    decreases |air|
  {
    if air != [] { NoClocks(air[1..]); }
  }

  /** A part of the bridge that writes no time and does not touch the timer of the periodic refresh. */
  ghost predicate Timeless(b: Bridge, c: Bridge)
  {
    && Clocks(c.air) == Clocks(b.air) && c.lastWatchPoll == b.lastWatchPoll
    && c.connected == b.connected && c.discovered == b.discovered && c.h == b.h
  }

  lemma TimelessWrites(b: Bridge, c: Bridge, more: seq<Out>)
    requires c.air == b.air + more && forall o :: o in more ==> !o.Time?
    ensures Clocks(c.air) == Clocks(b.air)
  {
    ClocksConcat(b.air, more);
    NoClocks(more);
  }

  lemma {:induction false} DeliverTimeless(b: Bridge, notes: seq<Note>)
    ensures Timeless(b, b.Deliver(notes)) && b.Deliver(notes).busy == b.busy
    decreases |notes|
  {
    if notes != [] {
      if notes[0].message == [] {
        DeliverTimeless(b, notes[1..]);
      } else if b.h.ans != 0 {
        var c := b.SendNotification(notes[0].message, notes[0].accepted).(marked := b.marked + [notes[0].id]);
        TimelessWrites(b, c, if notes[0].accepted then [Alert(AnsPayload(notes[0].message))] else []);
        DeliverTimeless(c, notes[1..]);
      }
    }
  }

  lemma PollTimeless(b: Bridge, now: word, p: Poll)
    ensures Timeless(b, b.PollIfDue(now, p)) && b.PollIfDue(now, p).busy == b.busy
  {
    if p.Polled? { DeliverTimeless(b.(lastPoll := now, api := p.reminders), p.notes); }
  }

  lemma QueueTimeless(b: Bridge, accepted: bool)
    ensures Timeless(b, b.ProcessQueue(accepted))
  {
    var c := b.ProcessQueue(accepted);
    TimelessWrites(b, c, if c.air == b.air then [] else [Sent(b.queue[0], b.HandleFor(b.queue[0]))]);
  }

  lemma FirmwareTimeless(b: Bridge, d: DfuClients.Client)
    ensures Timeless(b, b.WithDfu(d))
  {
    var more: seq<Out> := if |d.writes| > |b.dfu.writes| then seq(|d.writes| - |b.dfu.writes|, _ => Firmware) else [];
    TimelessWrites(b, b.WithDfu(d), more);
  }

  lemma PairingTimeless(b: Bridge, r: PairReply)
    ensures Timeless(b, b.CheckPairing(r))
  {
    if r.Reply? { FirmwareTimeless(b, b.dfu.Begin(r.bin, r.dat)); }
  }

  /** Past the DFU block: an update seen to end makes the next refresh count from 0. */
  lemma EarlyTimer(b: Bridge, now: word)
    requires !b.DfuActive() || b.TimedOut(now)
    ensures var o := Supervision.ClearOfDfu(b, now);
            && o.lastWatchPoll == (if Supervision.Ended(b) then 0 else b.lastWatchPoll)
            && o.air == b.air && o.connected == b.connected && o.discovered == b.discovered && o.h == b.h
  {
    EarlyBystander(b, now);
    var p := b.PastSupervision(now);
  }

  /** The loop() call leaves the link idle before the refresh: connected, with the service, nothing queued and not busy. */
  predicate IdleLink(b: Bridge, now: word, i: LoopInput)
  {
    var p := Supervision.ClearOfDfu(b, now).ProcessQueue(i.accepted).PollIfDue(now, i.poll);
    b.connected && b.discovered && p.queue == [] && !p.busy
  }

  predicate CanWrite(b: Bridge, t: TimeWrite) { b.h.cts != 0 && t.valid && t.accepted }

  function Since(b: Bridge): word { if Supervision.Ended(b) then 0 else b.lastWatchPoll }

  lemma RefreshClocks(b: Bridge, now: word, t: TimeWrite)
    ensures var c := b.RefreshWatch(now, t);
            var due := b.connected && b.discovered && b.queue == [] && !b.busy && Wrap(now - b.lastWatchPoll) > 300000;
            && Clocks(c.air) == Clocks(b.air) + (if due && CanWrite(b, t) then 1 else 0)
            && c.lastWatchPoll == if due then now else b.lastWatchPoll
  {
    ClocksConcat(b.air, [Time]);
    assert Clocks([Time]) == 1;
  }

  /**
    A loop() call past the DFU block writes the time exactly if the link is idle, more than 300000 ms have passed by the
    clock since the refresh timer was set, or since 0 if the call sees an update ended, and the write can be made; and it
    sets the timer exactly if the first two hold.
   */
  lemma LoopWritesTimeIff(b: Bridge, now: word, i: LoopInput)
    requires !b.DfuActive() || b.TimedOut(now)
    ensures var c := b.LoopStep(now, i);
            var due := IdleLink(b, now, i) && Wrap(now - Since(b)) > 300000;
            && Clocks(c.air) == Clocks(b.air) + (if due && CanWrite(b, i.time) then 1 else 0)
            && c.lastWatchPoll == if due then now else Since(b)
  {
    var o := Supervision.ClearOfDfu(b, now);
    EarlyTimer(b, now);
    QueueTimeless(o, i.accepted);
    var q := o.ProcessQueue(i.accepted);
    PollTimeless(q, now, i.poll);
    var p := q.PollIfDue(now, i.poll);
    RefreshClocks(p, now, i.time);
    PairingTimeless(p.RefreshWatch(now, i.time), i.pair);
  }

  /** A call that runs the update instead writes no time and leaves the timer. */
  lemma ActiveLoopWritesNoTime(b: Bridge, now: word, i: LoopInput)
    requires b.DfuActive() && !b.TimedOut(now)
    ensures var c := b.LoopStep(now, i); Clocks(c.air) == Clocks(b.air) && c.lastWatchPoll == b.lastWatchPoll
  {
    var d := if b.dfuStart == 0 then b.(dfuStart := now) else b;
    FirmwareTimeless(d, d.dfu.Step(DfuClients.Process));
  }

  /** A connection starts the timer, and a discovery that is not the update's writes the time whenever it can, restarting it. */
  lemma ConnectionWritesTime(b: Bridge, now: word, f: Found, t: TimeWrite)
    requires !(b.dfu.state.CONNECTING? && f.ctrl != 0 && f.pkt != 0)
    ensures b.OnOpen(now).lastWatchPoll == now && b.OnOpen(now).air == b.air
    ensures var c, can := b.DiscoverServices(now, f, t), CanWrite(b.(h := b.h.Updated(f.h)), t);
            && Clocks(c.air) == Clocks(b.air) + (if can then 1 else 0)
            && c.lastWatchPoll == if can then now else b.lastWatchPoll
  {
    ClocksConcat(b.air, [Time]);
    assert Clocks([Time]) == 1;
    ServiceTimeless(b.(h := b.h.Updated(f.h)).SyncTime(now, t));
  }

  lemma ServiceTimeless(b: Bridge)
    ensures b.UseReminderService().air == b.air && b.UseReminderService().lastWatchPoll == b.lastWatchPoll
  {
  }

  /** A run without connections, discoveries, refreshes and ends of updates. */
  predicate Undisturbed(b: Bridge, es: seq<Event>)
    decreases |es|
  {
    es == []
    || (&& !es[0].Open? && !es[0].Discover?
        && (es[0].Loop? && (!b.DfuActive() || b.TimedOut(es[0].now)) ==>
              !Supervision.Ended(b) && !(IdleLink(b, es[0].now, es[0].input) && Wrap(es[0].now - b.lastWatchPoll) > 300000))
        && Undisturbed(b.Step(es[0]), es[1..]))
  }

  lemma TimerKept(b: Bridge, e: Event)
    requires !e.Open? && !e.Discover?
    requires e.Loop? && (!b.DfuActive() || b.TimedOut(e.now)) ==>
               !Supervision.Ended(b) && !(IdleLink(b, e.now, e.input) && Wrap(e.now - b.lastWatchPoll) > 300000)
    ensures b.Step(e).lastWatchPoll == b.lastWatchPoll
  {
    match e
    case Loop(now, i) =>
      if !b.DfuActive() || b.TimedOut(now) { LoopWritesTimeIff(b, now, i); } else { ActiveLoopWritesNoTime(b, now, i); }
    case _ =>
  }

  lemma {:induction false} TimerStays(b: Bridge, es: seq<Event>)
    requires Undisturbed(b, es)
    ensures Supervision.After(b, es).lastWatchPoll == b.lastWatchPoll
    decreases |es|
  {
    if es != [] {
      TimerKept(b, es[0]);
      TimerStays(b.Step(es[0]), es[1..]);
    }
  }

  /**
    After a refresh, over any undisturbed run, drops and other traffic included, the next loop() call that writes the time
    comes more than 300000 ms later by the clock.
   */
  lemma RefreshesAreSpaced(b: Bridge, now: word, es: seq<Event>, next: word, j: LoopInput)
    requires b.lastWatchPoll == now && Undisturbed(b, es)
    requires !Supervision.Ended(Supervision.After(b, es))
    ensures var c := Supervision.After(b, es);
            (!c.DfuActive() || c.TimedOut(next)) && Clocks(c.LoopStep(next, j).air) != Clocks(c.air) ==>
              Wrap(next - now) > 300000
  {
    TimerStays(b, es);
    WritesTimeLater(Supervision.After(b, es), next, j);
  }

  lemma WritesTimeLater(b: Bridge, now: word, i: LoopInput)
    requires !Supervision.Ended(b)
    ensures (!b.DfuActive() || b.TimedOut(now)) && Clocks(b.LoopStep(now, i).air) != Clocks(b.air) ==>
              Wrap(now - b.lastWatchPoll) > 300000
  {
    if !b.DfuActive() || b.TimedOut(now) { LoopWritesTimeIff(b, now, i); }
  }
}
