/** Which characteristic a reminder command goes to, and what the watch makes of a write by its characteristic. */
module Routing {
  import opened Bytes
  import opened WireFormat
  import opened Bridges
  import opened SyncProtocol
  import Supervision
  import DfuClients
  import Polling

  /** The watch's service: its characteristics have different, non-zero handles. */
  predicate Service(w: Handles)
  {
    w.upload != 0 && w.delete != 0 && w.sync != 0 && w.upload != w.delete && w.upload != w.sync && w.delete != w.sync
  }

  /** What the watch does on a write of this data to this handle. */
  function Written(w: Handles, handle: nat, data: seq<byte>, records: WatchMap): WatchMap
  {
    if handle == w.upload then (if |data| == RECORD_SIZE then records[data[1] := data] else records)
    else if handle == w.delete then
      (if data == [0xFF] then map[] else if |data| == 1 then records - {data[0]} else records)
    else records
  }

  /** The bridge knows these handles or none. */
  predicate Knows(h: Handles, w: Handles)
  {
    (h.upload == 0 || h.upload == w.upload) && (h.delete == 0 || h.delete == w.delete) && (h.sync == 0 || h.sync == w.sync)
  }

  /** Every reminder command on the link does on the watch, by the handle it was written to, what its kind means. */
  ghost predicate Routed(b: Bridge, w: Handles)
  {
    && Knows(b.h, w)
    && forall o :: o in b.air && o.Sent? ==>
         forall records: WatchMap :: Written(w, o.handle, o.cmd.data, records) == Apply(o.cmd, records)
  }

  /** A step that at most adds writes other than commands and at most forgets handles. */
  ghost predicate Quietly(b: Bridge, c: Bridge)
  {
    c.h == b.h && forall o :: o in c.air && o.Sent? ==> o in b.air
  }

  lemma {:induction false} DeliverQuietly(b: Bridge, notes: seq<Note>)
    ensures Quietly(b, b.Deliver(notes))
    decreases |notes|
  {
    if notes != [] {
      if notes[0].message == [] {
        DeliverQuietly(b, notes[1..]);
      } else if b.h.ans != 0 {
        DeliverQuietly(b.SendNotification(notes[0].message, notes[0].accepted).(marked := b.marked + [notes[0].id]), notes[1..]);
      }
    }
  }

  lemma PollQuietly(b: Bridge, now: word, p: Poll)
    ensures Quietly(b, b.PollIfDue(now, p))
  {
    if p.Polled? { DeliverQuietly(b.(lastPoll := now, api := p.reminders), p.notes); }
  }

  lemma RefreshQuietly(b: Bridge, now: word, i: LoopInput)
    ensures Quietly(b, b.RefreshWatch(now, i.time).CheckPairing(i.pair))
  {
  }

  lemma QueueRoutes(b: Bridge, w: Handles, accepted: bool)
    requires Service(w) && Routed(b, w)
    ensures Routed(b.ProcessQueue(accepted), w)
  {
    if b.queue != [] && b.HandleFor(b.queue[0]) != 0 {
      forall records: WatchMap
        ensures Written(w, b.HandleFor(b.queue[0]), b.queue[0].data, records) == Apply(b.queue[0], records)
      {
      }
    }
  }

  lemma LoopRoutes(b: Bridge, w: Handles, now: word, i: LoopInput)
    requires Service(w) && Routed(b, w)
    ensures Routed(b.LoopStep(now, i), w)
  {
    if !b.DfuActive() || b.TimedOut(now) {
      var o := Supervision.ClearOfDfu(b, now);
      EarlyBystander(b, now);
      QueueRoutes(o, w, i.accepted);
      var q := o.ProcessQueue(i.accepted);
      PollQuietly(q, now, i.poll);
      RefreshQuietly(q.PollIfDue(now, i.poll), now, i);
    }
  }

  lemma DiscoverRoutes(b: Bridge, w: Handles, now: word, f: Found, t: TimeWrite)
    requires Routed(b, w) && Knows(f.h, w)
    ensures Routed(b.DiscoverServices(now, f, t), w)
  {
    var c := b.(h := b.h.Updated(f.h));
    Polling.DiscoverIs(b, now, f, t);
    assert Routed(c, w);
  }

  lemma EventRoutes(b: Bridge, w: Handles, e: Event)
    requires Service(w) && Routed(b, w) && (e.Discover? ==> Knows(e.found.h, w))
    ensures Routed(b.Step(e), w)
  {
    match e
    case Loop(now, i) => LoopRoutes(b, w, now, i);
    case Discover(now, f, t) => DiscoverRoutes(b, w, now, f, t);
    case _ =>
  }

  /** Discoveries find the watch's own handles, or fail to. */
  predicate Finds(acts: seq<Action>, w: Handles)
  {
    forall a :: a in acts && a.Handle? && a.e.Discover? ==> Knows(a.e.found.h, w)
  }

  lemma StepRoutes(s: Sys, a: Action, w: Handles)
    requires Service(w) && Routed(s.b, w) && s.Enabled(a) && Finds([a], w)
    ensures Routed(s.Step(a).b, w)
  {
    assert a in [a];
    match a
    case Handle(e) => EventRoutes(s.b, w, e);
    case Drop(_) => EventRoutes(s.b, w, Disconnected);
    case _ =>
  }

  /**
    Over every run in which discoveries find the watch's own handles, every reminder command on the link does on the
    watch, by the characteristic it was written to, what its kind means.
   */
  lemma {:induction false} RunRoutes(s: Sys, acts: seq<Action>, w: Handles)
    requires Service(w) && Routed(s.b, w) && s.Runs(acts) && Finds(acts, w)
    ensures Routed(s.Exec(acts).b, w)
    decreases |acts|
  {
    if acts != [] {
      assert acts[0] in acts;
      StepRoutes(s, acts[0], w);
      RunRoutes(s.Step(acts[0]), acts[1..], w);
    }
  }

  lemma BootRoutes(pollInterval: word, now: word, watch: WatchMap, acts: seq<Action>, w: Handles)
    requires Service(w) && Boot(pollInterval, now, watch).Runs(acts) && Finds(acts, w)
    ensures Routed(Boot(pollInterval, now, watch).Exec(acts).b, w)
  {
    RunRoutes(Boot(pollInterval, now, watch), acts, w);
  }

  /** After a discovery each handle is the one found, or what it was if none was found. */
  lemma DiscoverySetsHandles(b: Bridge, now: word, f: Found, t: TimeWrite)
    ensures var h := b.DiscoverServices(now, f, t).h;
            && (f.h.upload != 0 ==> h.upload == f.h.upload) && (f.h.upload == 0 ==> h.upload == b.h.upload)
            && (f.h.delete != 0 ==> h.delete == f.h.delete) && (f.h.delete == 0 ==> h.delete == b.h.delete)
            && (f.h.sync != 0 ==> h.sync == f.h.sync) && (f.h.sync == 0 ==> h.sync == b.h.sync)
            && (f.h.ans != 0 ==> h.ans == f.h.ans) && (f.h.ans == 0 ==> h.ans == b.h.ans)
            && (f.h.cts != 0 ==> h.cts == f.h.cts) && (f.h.cts == 0 ==> h.cts == b.h.cts)
  {
    Polling.DiscoverIs(b, now, f, t);
  }
}
