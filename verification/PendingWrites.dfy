/** The counter of time and alert writes: what it counts, and so which drops are noticed. */
module PendingWrites {
  import opened Bytes
  import opened Bridges
  import opened SyncProtocol
  import DfuClients
  import Supervision

  /** Time and alert writes on the link. */
  function Counted(air: seq<Out>): nat
  {
    if air == [] then 0 else (if air[0].Time? || air[0].Alert? then 1 else 0) + Counted(air[1..])
  }

  lemma {:induction false} CountedConcat(a: seq<Out>, b: seq<Out>)
    ensures Counted(a + b) == Counted(a) + Counted(b)
    decreases |a|
  {
    if a == [] {
      assert a + b == b;
    } else {
      assert (a + b)[0] == a[0] && (a + b)[1..] == a[1..] + b;
      CountedConcat(a[1..], b);
    }
  }

  lemma {:induction false} NoneCounted(air: seq<Out>)
    requires forall o :: o in air ==> !o.Time? && !o.Alert?
    ensures Counted(air) == 0
    decreases |air|
  {
    if air != [] { NoneCounted(air[1..]); }
  }

  /** The counter has gone up by the time and alert writes added to the link, modulo 256. */
  ghost predicate Tallies(b: Bridge, c: Bridge)
  {
    Counted(b.air) <= Counted(c.air) && c.pending as nat == (b.pending as nat + (Counted(c.air) - Counted(b.air))) % 256
  }

  lemma TalliesOn(a: Bridge, b: Bridge, c: Bridge)
    requires Tallies(a, b) && Tallies(b, c)
    ensures Tallies(a, c)
  {
  }

  lemma Uncounted(b: Bridge, c: Bridge, more: seq<Out>)
    requires c.air == b.air + more && c.pending == b.pending && forall o :: o in more ==> !o.Time? && !o.Alert?
    ensures Tallies(b, c)
  {
    CountedConcat(b.air, more);
    NoneCounted(more);
  }

  lemma OneCounted(b: Bridge, c: Bridge, o: Out)
    requires c.air == b.air + [o] && (o.Time? || o.Alert?) && c.pending == (b.pending + 1) % 256
    ensures Tallies(b, c)
  {
    CountedConcat(b.air, [o]);
    assert Counted([o]) == 1;
  }

  lemma TimeTallies(b: Bridge, now: word, t: TimeWrite)
    ensures Tallies(b, b.SyncTime(now, t))
  {
    if b.h.cts == 0 || !t.valid || !t.accepted { Uncounted(b, b, []); } else { OneCounted(b, b.SyncTime(now, t), Time); }
  }

  lemma AlertTallies(b: Bridge, message: seq<text>, accepted: bool)
    ensures Tallies(b, b.SendNotification(message, accepted))
  {
    if b.h.ans == 0 || !accepted {
      Uncounted(b, b, []);
    } else {
      OneCounted(b, b.SendNotification(message, accepted), Alert(AnsPayload(message)));
    }
  }

  lemma {:induction false} DeliverTallies(b: Bridge, notes: seq<Note>)
    ensures Tallies(b, b.Deliver(notes))
    decreases |notes|
  {
    if notes != [] && notes[0].message == [] {
      DeliverTallies(b, notes[1..]);
    } else if notes != [] && b.h.ans != 0 {
      var c := b.SendNotification(notes[0].message, notes[0].accepted).(marked := b.marked + [notes[0].id]);
      AlertTallies(b, notes[0].message, notes[0].accepted);
      DeliverTallies(c, notes[1..]);
      TalliesOn(b, c, b.Deliver(notes));
    } else {
      Uncounted(b, b, []);
    }
  }

  lemma PollTallies(b: Bridge, now: word, p: Poll)
    ensures Tallies(b, b.PollIfDue(now, p))
  {
    if p.Polled? { DeliverTallies(b.(lastPoll := now, api := p.reminders), p.notes); }
    Uncounted(b, b, []);
  }

  lemma QueueTallies(b: Bridge, accepted: bool)
    ensures Tallies(b, b.ProcessQueue(accepted))
  {
    var c := b.ProcessQueue(accepted);
    Uncounted(b, c, if c.air == b.air then [] else [Sent(b.queue[0], b.HandleFor(b.queue[0]))]);
  }

  lemma FirmwareTallies(b: Bridge, d: DfuClients.Client)
    ensures Tallies(b, b.WithDfu(d))
  {
    var more: seq<Out> := if |d.writes| > |b.dfu.writes| then seq(|d.writes| - |b.dfu.writes|, _ => Firmware) else [];
    Uncounted(b, b.WithDfu(d), more);
  }

  lemma RefreshTallies(b: Bridge, now: word, t: TimeWrite)
    ensures Tallies(b, b.RefreshWatch(now, t))
  {
    TimeTallies(b.(lastWatchPoll := now), now, t);
    Uncounted(b, b, []);
  }

  lemma PairingTallies(b: Bridge, r: PairReply)
    ensures Tallies(b, b.CheckPairing(r))
  {
    if r.Reply? { FirmwareTallies(b, b.dfu.Begin(r.bin, r.dat)); }
    Uncounted(b, b, []);
  }

  lemma EarlyTallies(b: Bridge, now: word)
    requires !b.DfuActive() || b.TimedOut(now)
    ensures Tallies(b, Supervision.ClearOfDfu(b, now))
  {
    EarlyBystander(b, now);
    PastPending(b, now);
    Uncounted(b, Supervision.ClearOfDfu(b, now), []);
  }

  lemma PastPending(b: Bridge, now: word)
    requires !b.DfuActive() || b.TimedOut(now)
    ensures Supervision.ClearOfDfu(b, now).pending == b.pending
  {
    assert b.PastSupervision(now).pending == b.pending;
    assert b.PastSupervision(now).AfterDfu(now).pending == b.pending;
  }

  lemma LoopTallies(b: Bridge, now: word, i: LoopInput)
    ensures Tallies(b, b.LoopStep(now, i))
  {
    if b.DfuActive() && !b.TimedOut(now) {
      var d := if b.dfuStart == 0 then b.(dfuStart := now) else b;
      FirmwareTallies(d, d.dfu.Step(DfuClients.Process));
    } else {
      var o := Supervision.ClearOfDfu(b, now);
      var q := o.ProcessQueue(i.accepted);
      var p := q.PollIfDue(now, i.poll);
      var r := p.RefreshWatch(now, i.time);
      EarlyTallies(b, now);
      QueueTallies(o, i.accepted);
      TalliesOn(b, o, q);
      PollTallies(q, now, i.poll);
      TalliesOn(b, q, p);
      RefreshTallies(p, now, i.time);
      TalliesOn(b, p, r);
      PairingTallies(r, i.pair);
      TalliesOn(b, r, r.CheckPairing(i.pair));
    }
  }

  lemma DiscoverTallies(b: Bridge, now: word, f: Found, t: TimeWrite)
    ensures Tallies(b, b.DiscoverServices(now, f, t))
  {
    var c := b.(h := b.h.Updated(f.h));
    FirmwareTallies(c, b.dfu.ServicesDiscovered(f.ctrl, f.pkt));
    TimeTallies(c, now, t);
    ServiceUncounted(c.SyncTime(now, t));
  }

  lemma ServiceUncounted(b: Bridge)
    ensures b.UseReminderService().air == b.air && b.UseReminderService().pending == b.pending
  {
  }

  /** Every event but completions and drops counts exactly the time and alert writes it puts on the link, modulo 256. */
  lemma EventTallies(b: Bridge, e: Event)
    requires !e.WriteDone? && !e.Disconnected?
    ensures Tallies(b, b.Step(e))
  {
    match e
    case Loop(now, i) => LoopTallies(b, now, i);
    case Discover(now, f, t) => DiscoverTallies(b, now, f, t);
    case Notified(h, data) => FirmwareTallies(b, b.dfu.Step(DfuClients.Notify(h, data)));
    case Open(_) => Uncounted(b, b.Step(e), []);
  }

  /** Events on the bridge between two completions or drops. */
  predicate Uncompleted(es: seq<Event>) { forall e :: e in es ==> !e.WriteDone? && !e.Disconnected? }

  lemma {:induction false} RunTallies(b: Bridge, es: seq<Event>)
    requires Uncompleted(es)
    ensures Tallies(b, Supervision.After(b, es))
    decreases |es|
  {
    if es == [] {
      Uncounted(b, b, []);
    } else {
      assert es[0] in es;
      EventTallies(b, es[0]);
      RunTallies(b.Step(es[0]), es[1..]);
      TalliesOn(b, b.Step(es[0]), Supervision.After(b, es));
    }
  }

  /**
    So a drop with a hash cached and nothing queued is noticed, before any completion, exactly if the time and alert writes
    made since the last drop are not a multiple of 256: it forgets the cache then, and only then.
   */
  lemma DropForgetsIffCounted(b: Bridge, es: seq<Event>)
    requires Uncompleted(es)
    ensures var c := Supervision.After(b.OnDisconnect(), es);
            c.queue == [] && c.lastHash != 0 ==> (c.OnDisconnect().lastHash == 0 <==> Counted(c.air) % 256 != 0)
  {
    RunTallies(b.OnDisconnect(), es);
    assert b.OnDisconnect().pending == 0 && b.OnDisconnect().air == [];
  }

  /** And each completion counts down by one, not below 0. */
  lemma CompletionsCountDown(b: Bridge)
    ensures b.OnWriteDone().pending as nat == (if b.pending > 0 then b.pending as nat - 1 else 0) && b.OnWriteDone().air == b.air
  {
  }
}
