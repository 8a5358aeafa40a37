/** The polls of the server: what the bridge holds after them, when they lead to a sync, and when they happen. */
module Polling {
  import opened Bytes
  import opened WireFormat
  import opened Bridges
  import opened SyncProtocol
  import opened Wrappers
  import Supervision
  import DfuClients
  import Djb2

  // ---------------------------------------------------------------- what the bridge holds

  /** Does a loop() call get to a poll? */
  predicate GetsToPoll(b: Bridge, now: word)
  {
    (!b.DfuActive() || b.TimedOut(now)) && Wrap(now - b.lastPoll) > b.pollInterval
  }

  /** The list an event brings from the server. */
  function Listed(b: Bridge, e: Event): Option<seq<ApiReminder>>
  {
    if e.Loop? && GetsToPoll(b, e.now) && e.input.poll.Polled? then Some(e.input.poll.reminders) else None
  }

  function Latest(sofar: seq<ApiReminder>, listed: Option<seq<ApiReminder>>): seq<ApiReminder>
  {
    if listed.Some? then listed.value else sofar
  }

  /** The list of the last successful poll of a run. */
  function LastListed(s: Sys, acts: seq<Action>, sofar: seq<ApiReminder>): seq<ApiReminder>
    requires s.Runs(acts)
    decreases |acts|
  {
    if acts == [] then sofar
    else LastListed(s.Step(acts[0]), acts[1..],
                    Latest(sofar, if acts[0].Handle? then Listed(s.b, acts[0].e) else None))
  }

  /** What a delivery of notifications leaves alone. */
  ghost predicate SameSync(b: Bridge, c: Bridge)
  {
    && c.api == b.api && c.lastHash == b.lastHash && c.queue == b.queue && c.h == b.h && c.dfu == b.dfu && c.postDfu == b.postDfu
    && c.lastPoll == b.lastPoll && c.pollInterval == b.pollInterval
  }

  lemma {:induction false} DeliverSameSync(b: Bridge, notes: seq<Note>)
    ensures SameSync(b, b.Deliver(notes))
    decreases |notes|
  {
    if notes != [] {
      if notes[0].message == [] {
        DeliverSameSync(b, notes[1..]);
      } else if b.h.ans != 0 {
        DeliverSameSync(b.SendNotification(notes[0].message, notes[0].accepted).(marked := b.marked + [notes[0].id]), notes[1..]);
      }
    }
  }

  lemma QueueSameApi(b: Bridge, accepted: bool)
    ensures var c := b.ProcessQueue(accepted);
            c.api == b.api && c.lastHash == b.lastHash && c.h == b.h && c.dfu == b.dfu && c.postDfu == b.postDfu
            && c.lastPoll == b.lastPoll && c.pollInterval == b.pollInterval
  {
  }

  /** The poll stage of a call that gets to a poll: the list is taken over whole, and the sync check runs on it. */
  lemma DuePoll(b: Bridge, now: word, p: Poll)
    requires Wrap(now - b.lastPoll) > b.pollInterval
    ensures var c := b.PollIfDue(now, p);
            && c.api == (if p.Polled? then p.reminders else b.api) && c.lastPoll == now && c.pollInterval == b.pollInterval && c.h == b.h
            && (b.dfu.state.IDLE? && !b.postDfu && b.h.upload != 0 ==>
                  var hash := Djb2.Hash(Encode(Snapshot(c.api)));
                  c.lastHash == hash && c.queue == b.queue + if hash != b.lastHash then b.Batch(Snapshot(c.api)) else [])
            && (!(b.dfu.state.IDLE? && !b.postDfu && b.h.upload != 0) ==> c.lastHash == b.lastHash && c.queue == b.queue)
  {
    var d := b.(lastPoll := now);
    if p.Polled? { DeliverSameSync(d.(api := p.reminders), p.notes); }
  }

  lemma NoPoll(b: Bridge, now: word, p: Poll)
    requires Wrap(now - b.lastPoll) <= b.pollInterval
    ensures b.PollIfDue(now, p) == b
  {
  }

  /** A loop() call past the DFU block, as far as polls go. */
  lemma LoopPolls(b: Bridge, now: word, i: LoopInput)
    requires !b.DfuActive() || b.TimedOut(now)
    ensures var o := Supervision.ClearOfDfu(b, now);
            var p := o.ProcessQueue(i.accepted).PollIfDue(now, i.poll);
            var c := b.LoopStep(now, i);
            && c.api == p.api && c.lastHash == p.lastHash && c.queue == p.queue && c.h == p.h
            && c.lastPoll == p.lastPoll && c.pollInterval == p.pollInterval
            && o.api == b.api && o.h == b.h && o.lastPoll == b.lastPoll && o.pollInterval == b.pollInterval
            && o.dfu.state.IDLE?
  {
    EarlyBystander(b, now);
    Supervision.OpenIsIdle(b, now);
  }

  lemma LoopHolds(b: Bridge, now: word, i: LoopInput)
    ensures var c := b.LoopStep(now, i);
            && c.api == Latest(b.api, Listed(b, Loop(now, i))) && c.pollInterval == b.pollInterval
            && c.lastPoll == if GetsToPoll(b, now) then now else b.lastPoll
  {
    if !b.DfuActive() || b.TimedOut(now) {
      LoopPolls(b, now, i);
      var q := Supervision.ClearOfDfu(b, now).ProcessQueue(i.accepted);
      QueueSameApi(Supervision.ClearOfDfu(b, now), i.accepted);
      if GetsToPoll(b, now) { DuePoll(q, now, i.poll); } else { NoPoll(q, now, i.poll); }
    }
  }

  lemma ServiceHolds(b: Bridge)
    ensures var c := b.UseReminderService();
            && c.api == b.api && c.pollInterval == b.pollInterval
            && ((b.h.upload != 0 && b.h.sync != 0 && b.dfu.state.IDLE? && !b.postDfu) || Cached(b) ==> Cached(c))
  {
  }

  /** A discovery is the update's, or writes the time and uses the reminder service. */
  lemma DiscoverIs(b: Bridge, now: word, f: Found, t: TimeWrite)
    ensures var c := b.(h := b.h.Updated(f.h));
            b.DiscoverServices(now, f, t) == if b.dfu.state.CONNECTING? && f.ctrl != 0 && f.pkt != 0
                                             then c.WithDfu(b.dfu.ServicesDiscovered(f.ctrl, f.pkt))
                                             else c.SyncTime(now, t).UseReminderService()
  {
  }

  lemma DiscoverHolds(b: Bridge, now: word, f: Found, t: TimeWrite)
    ensures var c := b.DiscoverServices(now, f, t); c.api == b.api && c.pollInterval == b.pollInterval
  {
    var c := b.(h := b.h.Updated(f.h));
    DiscoverIs(b, now, f, t);
    ServiceHolds(c.SyncTime(now, t));
  }

  /** Only a poll changes what the bridge holds, and it changes it to what the server lists. */
  lemma StepHolds(b: Bridge, e: Event)
    ensures b.Step(e).api == Latest(b.api, Listed(b, e)) && b.Step(e).pollInterval == b.pollInterval
  {
    match e
    case Loop(now, i) => LoopHolds(b, now, i);
    case Discover(now, f, t) => DiscoverHolds(b, now, f, t);
    case _ =>
  }

  /** Over every run the bridge holds the list of the last successful poll, or what it held before if there was none. */
  lemma {:induction false} HoldsLastListed(s: Sys, acts: seq<Action>)
    requires s.Runs(acts)
    ensures s.Exec(acts).b.api == LastListed(s, acts, s.b.api)
    decreases |acts|
  {
    if acts != [] {
      if acts[0].Handle? { StepHolds(s.b, acts[0].e); }
      HoldsLastListed(s.Step(acts[0]), acts[1..]);
    }
  }

  // ---------------------------------------------------------------- polls lead to syncs

  /**
    A loop() call that gets to a poll out of the grace period, with the upload handle known: afterwards the cached hash is
    that of the list now held, and if it was another before, the batch of that list is queued behind what was left.
   */
  lemma PollSyncs(b: Bridge, now: word, i: LoopInput)
    requires GetsToPoll(b, now) && !Supervision.ClearOfDfu(b, now).postDfu && b.h.upload != 0
    ensures var o := Supervision.ClearOfDfu(b, now);
            var q, c := o.ProcessQueue(i.accepted), b.LoopStep(now, i);
            var rs := if i.poll.Polled? then i.poll.reminders else b.api;
            var hash := Djb2.Hash(Encode(Snapshot(rs)));
            && c.api == rs && c.lastHash == hash && !c.SyncDue()
            && c.queue == q.queue + (if hash != o.lastHash then b.Batch(Snapshot(rs)) else [])
  {
    LoopPolls(b, now, i);
    QueueSameApi(Supervision.ClearOfDfu(b, now), i.accepted);
    DuePoll(Supervision.ClearOfDfu(b, now).ProcessQueue(i.accepted), now, i.poll);
  }

  /** The event runs the sync check with somewhere to send to. */
  predicate Checks(b: Bridge, e: Event)
  {
    match e
    case Loop(now, _) => GetsToPoll(b, now) && !Supervision.ClearOfDfu(b, now).postDfu && b.h.upload != 0
    case Discover(_, f, _) =>
      && b.dfu.state.IDLE? && !b.postDfu
      && b.h.Updated(f.h).upload != 0 && b.h.Updated(f.h).sync != 0
    case _ => false
  }

  /** Has the sync check run since the last successful poll, or with it? */
  predicate Checked(s: Sys, acts: seq<Action>, sofar: bool)
    requires s.Runs(acts)
    decreases |acts|
  {
    if acts == [] then sofar
    else Checked(s.Step(acts[0]), acts[1..],
                 if acts[0].Handle? then Checks(s.b, acts[0].e) || (sofar && Listed(s.b, acts[0].e).None?) else sofar)
  }

  /** The cached hash is none or that of what the bridge holds. */
  ghost predicate Cached(b: Bridge) { b.lastHash == 0 || b.lastHash == Djb2.Hash(Encode(Snapshot(b.api))) }

  lemma LoopCaches(b: Bridge, now: word, i: LoopInput)
    ensures Checks(b, Loop(now, i)) ==> Cached(b.LoopStep(now, i))
    ensures Cached(b) && Listed(b, Loop(now, i)).None? ==> Cached(b.LoopStep(now, i))
  {
    if b.DfuActive() && !b.TimedOut(now) {
      SuperviseContinues(b, now);
    } else {
      var o := Supervision.ClearOfDfu(b, now);
      EarlyContinues(b, now);
      LoopPolls(b, now, i);
      QueueSameApi(o, i.accepted);
      var q := o.ProcessQueue(i.accepted);
      if GetsToPoll(b, now) { DuePoll(q, now, i.poll); } else { NoPoll(q, now, i.poll); }
    }
  }

  lemma DiscoverCaches(b: Bridge, now: word, f: Found, t: TimeWrite)
    ensures Checks(b, Discover(now, f, t)) || Cached(b) ==> Cached(b.DiscoverServices(now, f, t))
  {
    var c := b.(h := b.h.Updated(f.h));
    DiscoverIs(b, now, f, t);
    ServiceHolds(c.SyncTime(now, t));
  }

  lemma StepCaches(b: Bridge, e: Event)
    ensures Checks(b, e) || (Cached(b) && Listed(b, e).None?) ==> Cached(b.Step(e))
  {
    match e
    case Loop(now, i) => LoopCaches(b, now, i);
    case Discover(now, f, t) => DiscoverCaches(b, now, f, t);
    case _ =>
  }

  /** Over every run: once the sync check has run since the last successful poll, the cache is of what the bridge holds. */
  lemma {:induction false} CheckedIsCached(s: Sys, acts: seq<Action>, sofar: bool)
    requires s.Runs(acts) && (sofar ==> Cached(s.b))
    ensures Checked(s, acts, sofar) ==> Cached(s.Exec(acts).b)
    decreases |acts|
  {
    if acts != [] {
      match acts[0] {
        case Handle(e) =>
          StepCaches(s.b, e);
          CheckedIsCached(s.Step(acts[0]), acts[1..], Checks(s.b, e) || (sofar && Listed(s.b, e).None?));
        case Drop(_) =>
          StepCaches(s.b, Disconnected);
          CheckedIsCached(s.Step(acts[0]), acts[1..], sofar);
        case _ => CheckedIsCached(s.Step(acts[0]), acts[1..], sofar);
      }
    }
  }

  // ---------------------------------------------------------------- when polls happen

  /** A run of events without a discovery in which no loop() call gets to a poll. */
  predicate NoPolls(b: Bridge, es: seq<Event>)
    decreases |es|
  {
    es == [] || (!es[0].Discover? && (es[0].Loop? ==> !GetsToPoll(b, es[0].now)) && NoPolls(b.Step(es[0]), es[1..]))
  }

  lemma {:induction false} LastPollStays(b: Bridge, es: seq<Event>)
    requires NoPolls(b, es)
    ensures Supervision.After(b, es).lastPoll == b.lastPoll && Supervision.After(b, es).pollInterval == b.pollInterval
    decreases |es|
  {
    if es != [] {
      if es[0].Loop? { LoopHolds(b, es[0].now, es[0].input); }
      StepHolds(b, es[0]);
      LastPollStays(b.Step(es[0]), es[1..]);
    }
  }

  /**
    After a call that gets to a poll, and until a discovery, the next call to get to one is the first past the DFU block
    more than an interval later by the clock.
   */
  lemma PollsAreSpaced(b: Bridge, now: word, i: LoopInput, es: seq<Event>, next: word)
    requires GetsToPoll(b, now) && NoPolls(b.LoopStep(now, i), es)
    ensures var c := Supervision.After(b.LoopStep(now, i), es);
            GetsToPoll(c, next) <==> (!c.DfuActive() || c.TimedOut(next)) && Wrap(next - now) > b.pollInterval
  {
    LoopHolds(b, now, i);
    LastPollStays(b.LoopStep(now, i), es);
  }

  /** From boot the first poll is due after 10 seconds; at once, until then, if the interval is shorter and not yet used up. */
  lemma FirstPoll(pollInterval: word, start: nat, elapsed: nat)
    requires elapsed + pollInterval < WORD
    ensures GetsToPoll(Booted(pollInterval, Wrap(start)), Wrap(start + elapsed))
            <==> elapsed > 10000 || elapsed + pollInterval < 10000
  {
    var d := elapsed + pollInterval - 10000;
    var now, last := Wrap(start + elapsed), Wrap(Wrap(start) - pollInterval + 10000);
    var q, p, r := (start + elapsed) / WORD, start / WORD, (Wrap(start) - pollInterval + 10000) / WORD;
    assert (now as int) - (last as int) == d + WORD * (p + r - q);
    WrapShift(d, p + r - q);
    if d < 0 { WrapShift(d, 1); }
  }

  /** A discovery of the reminder service makes the next poll due as soon as the clock has gone past an interval from 0. */
  lemma DiscoveryForcesPoll(b: Bridge, now: word, f: Found, t: TimeWrite, next: word)
    requires !(b.dfu.state.CONNECTING? && f.ctrl != 0 && f.pkt != 0)
    requires b.h.Updated(f.h).upload != 0 && b.h.Updated(f.h).sync != 0
    ensures var c := b.DiscoverServices(now, f, t);
            GetsToPoll(c, next) <==> (!c.DfuActive() || c.TimedOut(next)) && next > b.pollInterval
  {
    DiscoverHolds(b, now, f, t);
  }

  /** A discovery that does not find the reminder service, upload and sync, changes neither queue nor cache nor poll timer. */
  lemma PartialServiceIsUnused(b: Bridge, now: word, f: Found, t: TimeWrite)
    requires b.h.Updated(f.h).upload == 0 || b.h.Updated(f.h).sync == 0
    ensures var c := b.DiscoverServices(now, f, t);
            c.queue == b.queue && c.lastHash == b.lastHash && c.lastPoll == b.lastPoll && c.discovered == b.discovered
  {
    var c := b.(h := b.h.Updated(f.h));
    DiscoverIs(b, now, f, t);
    assert c.SyncTime(now, t).discovered == b.discovered;
  }

}
