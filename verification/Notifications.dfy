/** One-off notifications: rows that stay pending on the server until the bridge has handed them over and marked them. */
module Notifications {
  import opened Bytes
  import opened Bridges
  import Supervision
  import Polling
  import SyncProtocol
  import opened Wrappers
  import DfuClients

  datatype Row = Row(message: seq<text>, pending: bool)

  type Rows = map<int, Row>

  function Created(rows: Rows, id: int, message: seq<text>): Rows { rows[id := Row(message, true)] }

  /** The rows once the marking posts for `ids` have arrived. */
  function Delivered(rows: Rows, ids: set<int>): Rows
  {
    map id | id in rows :: if id in ids then rows[id].(pending := false) else rows[id]
  }

  /** The notifications table of one user; row ids count up. */
  class NotificationStore {
    var rows: Rows
    var lastId: nat

    ghost predicate Valid()
      reads this
    {
      forall id :: id in rows ==> 1 <= id <= lastId
    }

    constructor ()
      ensures Valid() && rows == map[]
    {
      rows, lastId := map[], 0;
    }

    method CreateNotification(message: seq<text>) returns (id: int)
      requires Valid()
      modifies this
      ensures Valid() && id !in old(rows) && rows == Created(old(rows), id, message)
    {
      lastId := lastId + 1;
      id := lastId;
      rows := rows[id := Row(message, true)];
    }

    method MarkNotificationDelivered(id: int)
      requires Valid()
      modifies this`rows
      ensures Valid() && rows == Delivered(old(rows), {id})
    {
      if id in rows {
        rows := rows[id := rows[id].(pending := false)];
      }
    }

    /** All pending rows and no others, each once, oldest first. */
    method ListPendingNotifications() returns (ids: seq<int>)
      requires Valid()
      ensures forall id :: id in ids <==> id in rows && rows[id].pending
      ensures forall i, j :: 0 <= i < j < |ids| ==> ids[i] < ids[j]
    {
      ids := [];
      for id := 1 to lastId + 1
        invariant forall k :: k in ids <==> k in rows && rows[k].pending && k < id
        invariant forall i, j :: 0 <= i < j < |ids| ==> ids[i] < ids[j]
      {
        if id in rows && rows[id].pending {
          assert forall i :: 0 <= i < |ids| ==> ids[i] in ids;
          ids := ids + [id];
        }
      }
    }
  }

  /** The ids the bridge hands over: all non-empty ones, or none without an ANS handle. */
  function Handed(ans: nat, notes: seq<Note>): seq<int>
  {
    if notes == [] || ans == 0 then []
    else (if notes[0].message != [] then [notes[0].id] else []) + Handed(ans, notes[1..])
  }

  /** The alerts that reach the link: those handed over whose write is accepted. */
  function Alerts(ans: nat, notes: seq<Note>): seq<Out>
  {
    if notes == [] || ans == 0 then []
    else (if notes[0].message != [] && notes[0].accepted then [Alert(AnsPayload(notes[0].message))] else []) + Alerts(ans, notes[1..])
  }

  /**
    A poll's delivery loop: exactly the non-empty notifications are marked, in order, and only with an ANS handle; the
    accepted ones among them are exactly what goes on the link.
   */
  lemma {:induction false} DeliveryMarks(b: Bridge, notes: seq<Note>)
    ensures b.Deliver(notes).marked == b.marked + Handed(b.h.ans, notes)
    ensures b.Deliver(notes).air == b.air + Alerts(b.h.ans, notes)
    decreases |notes|
  {
    if notes != [] && notes[0].message == [] {
      DeliveryMarks(b, notes[1..]);
    } else if notes != [] && b.h.ans != 0 {
      var c := b.SendNotification(notes[0].message, notes[0].accepted).(marked := b.marked + [notes[0].id]);
      DeliveryMarks(c, notes[1..]);
      HeadDelivered(b, c, notes);
    }
  }

  lemma HeadDelivered(b: Bridge, c: Bridge, notes: seq<Note>)
    requires notes != [] && notes[0].message != [] && b.h.ans != 0
    requires c.marked == b.marked + [notes[0].id]
    requires c.air == b.air + if notes[0].accepted then [Alert(AnsPayload(notes[0].message))] else []
    ensures c.marked + Handed(b.h.ans, notes[1..]) == b.marked + Handed(b.h.ans, notes)
    ensures c.air + Alerts(b.h.ans, notes[1..]) == b.air + Alerts(b.h.ans, notes)
  {
    SyncProtocol.Associates(b.marked, [notes[0].id], Handed(b.h.ans, notes[1..]));
    SyncProtocol.Associates(b.air, if notes[0].accepted then [Alert(AnsPayload(notes[0].message))] else [], Alerts(b.h.ans, notes[1..]));
  }

  /** What a watch shows of an alert: the text behind the three header bytes, of the alert category and one message. */
  function Shown(data: seq<byte>): Option<seq<byte>>
  {
    if |data| >= 3 && data[0] == 7 && data[1] == 1 && data[2] == 0 then Some(data[3..]) else None
  }

  /** An alert is shown with its text, cut to 97 bytes; two texts give the same alert exactly if they agree up to there. */
  lemma AlertReadsBack(message: seq<text>, other: seq<text>)
    ensures Shown(AnsPayload(message)) == Some(message[..Min(|message|, 97)])
    ensures AnsPayload(message) == AnsPayload(other) <==> message[..Min(|message|, 97)] == other[..Min(|other|, 97)]
  {
    assert AnsPayload(message)[3..] == message[..Min(|message|, 97)];
    assert AnsPayload(other)[3..] == other[..Min(|other|, 97)];
  }

  // ---------------------------------------------------------------- what one event hands over

  /** The notifications an event reads: those of a poll that a loop() call gets to. */
  function Notes(b: Bridge, e: Event): seq<Note>
  {
    if e.Loop? && Polling.GetsToPoll(b, e.now) && e.input.poll.Polled?
    then e.input.poll.notes
    else []
  }

  /** The alerts among the writes on the link. */
  function AlertsIn(air: seq<Out>): seq<Out>
  {
    if air == [] then [] else (if air[0].Alert? then [air[0]] else []) + AlertsIn(air[1..])
  }

  lemma {:induction false} AlertsConcat(a: seq<Out>, b: seq<Out>)
    ensures AlertsIn(a + b) == AlertsIn(a) + AlertsIn(b)
    decreases |a|
  {
    if a == [] {
      assert a + b == b;
    } else {
      assert (a + b)[1..] == a[1..] + b;
      AlertsConcat(a[1..], b);
      SyncProtocol.Associates(if a[0].Alert? then [a[0]] else [], AlertsIn(a[1..]), AlertsIn(b));
    }
  }

  lemma {:induction false} NoAlerts(air: seq<Out>)
    requires forall o :: o in air ==> !o.Alert?
    ensures AlertsIn(air) == []
    decreases |air|
  {
    if air != [] { NoAlerts(air[1..]); }
  }

  lemma {:induction false} AllAlerts(ans: nat, notes: seq<Note>)
    ensures AlertsIn(Alerts(ans, notes)) == Alerts(ans, notes)
    decreases |notes|
  {
    if notes != [] && ans != 0 {
      AllAlerts(ans, notes[1..]);
      var head := if notes[0].message != [] && notes[0].accepted then [Alert(AnsPayload(notes[0].message))] else [];
      AlertsConcat(head, Alerts(ans, notes[1..]));
      if head != [] { assert head[1..] == []; }
    }
  }

  /** A part of the bridge that marks nothing and alerts nobody. */
  ghost predicate Silent(b: Bridge, c: Bridge) { c.marked == b.marked && AlertsIn(c.air) == AlertsIn(b.air) }

  lemma SilentWrites(b: Bridge, c: Bridge, more: seq<Out>)
    requires c.air == b.air + more && c.marked == b.marked && forall o :: o in more ==> !o.Alert?
    ensures Silent(b, c)
  {
    AlertsConcat(b.air, more);
    NoAlerts(more);
    assert AlertsIn(b.air) + [] == AlertsIn(b.air);
  }

  lemma FirmwareIsSilent(b: Bridge, d: DfuClients.Client)
    ensures Silent(b, b.WithDfu(d))
  {
    var more: seq<Out> := if |d.writes| > |b.dfu.writes| then seq(|d.writes| - |b.dfu.writes|, _ => Firmware) else [];
    SilentWrites(b, b.WithDfu(d), more);
  }

  lemma TimeIsSilent(b: Bridge, now: word, t: TimeWrite)
    ensures Silent(b, b.SyncTime(now, t))
  {
    SilentWrites(b, b.SyncTime(now, t), if b.h.cts == 0 || !t.valid || !t.accepted then [] else [Time]);
  }

  lemma QueueIsSilent(b: Bridge, accepted: bool)
    ensures Silent(b, b.ProcessQueue(accepted))
    ensures b.ProcessQueue(accepted).h == b.h && b.ProcessQueue(accepted).lastPoll == b.lastPoll
    ensures b.ProcessQueue(accepted).pollInterval == b.pollInterval
  {
    var c := b.ProcessQueue(accepted);
    SilentWrites(b, c, if c.air == b.air then [] else [Sent(b.queue[0], b.HandleFor(b.queue[0]))]);
  }

  lemma EndIsSilent(b: Bridge, now: word, i: LoopInput)
    ensures Silent(b, b.RefreshWatch(now, i.time).CheckPairing(i.pair))
  {
    TimeIsSilent(b.(lastWatchPoll := now), now, i.time);
    var c := b.RefreshWatch(now, i.time);
    if i.pair.Reply? { FirmwareIsSilent(c, c.dfu.Begin(i.pair.bin, i.pair.dat)); }
  }

  /** A poll that comes due hands over what it lists, and nothing else in it marks or alerts. */
  lemma PollDelivers(b: Bridge, now: word, p: Poll)
    ensures var notes := if Wrap(now - b.lastPoll) > b.pollInterval && p.Polled? then p.notes else [];
            var c := b.PollIfDue(now, p);
            && c.marked == b.marked + Handed(b.h.ans, notes)
            && AlertsIn(c.air) == AlertsIn(b.air) + Alerts(b.h.ans, notes)
  {
    if Wrap(now - b.lastPoll) > b.pollInterval {
      var c := b.(lastPoll := now);
      SyncIsSilent(c.PollApi(p));
      if p.Polled? {
        DeliveryAlerts(c.(api := p.reminders), p.notes);
      } else {
        assert c.PollApi(p) == c;
      }
    }
  }

  lemma SyncIsSilent(b: Bridge)
    ensures b.SyncIfAllowed().marked == b.marked && b.SyncIfAllowed().air == b.air
  {
  }

  lemma DeliveryAlerts(b: Bridge, notes: seq<Note>)
    ensures b.Deliver(notes).marked == b.marked + Handed(b.h.ans, notes)
    ensures AlertsIn(b.Deliver(notes).air) == AlertsIn(b.air) + Alerts(b.h.ans, notes)
  {
    DeliveryMarks(b, notes);
    AlertsConcat(b.air, Alerts(b.h.ans, notes));
    AllAlerts(b.h.ans, notes);
  }

  lemma LoopDelivers(b: Bridge, now: word, i: LoopInput)
    ensures var c, notes := b.LoopStep(now, i), Notes(b, Loop(now, i));
            && c.marked == b.marked + Handed(b.h.ans, notes)
            && AlertsIn(c.air) == AlertsIn(b.air) + Alerts(b.h.ans, notes)
  {
    if b.DfuActive() && !b.TimedOut(now) {
      SuperviseIsSilent(b, now);
    } else {
      var o := Supervision.ClearOfDfu(b, now);
      SyncProtocol.EarlyBystander(b, now);
      QueueIsSilent(o, i.accepted);
      var q := o.ProcessQueue(i.accepted);
      PollDelivers(q, now, i.poll);
      EndIsSilent(q.PollIfDue(now, i.poll), now, i);
    }
  }

  lemma SuperviseIsSilent(b: Bridge, now: word)
    requires b.DfuActive()
    ensures Silent(b, b.Supervise(now))
  {
    var c := if b.dfuStart == 0 then b.(dfuStart := now) else b;
    FirmwareIsSilent(c, c.dfu.Step(DfuClients.Process));
  }

  lemma DiscoverIsSilent(b: Bridge, now: word, f: Found, t: TimeWrite)
    ensures Silent(b, b.DiscoverServices(now, f, t))
  {
    var c := b.(h := b.h.Updated(f.h));
    FirmwareIsSilent(c, b.dfu.ServicesDiscovered(f.ctrl, f.pkt));
    TimeIsSilent(c, now, t);
  }

  /**
    Every event: it marks exactly the non-empty notifications its poll lists, with an ANS handle, and, unless the link
    drops, puts exactly the accepted ones' alerts on the link.
   */
  lemma EventDelivers(b: Bridge, e: Event)
    ensures b.Step(e).marked == b.marked + Handed(b.h.ans, Notes(b, e))
    ensures !e.Disconnected? ==> AlertsIn(b.Step(e).air) == AlertsIn(b.air) + Alerts(b.h.ans, Notes(b, e))
  {
    match e
    case Loop(now, i) => LoopDelivers(b, now, i);
    case Discover(now, f, t) => DiscoverIsSilent(b, now, f, t);
    case Notified(h, data) => FirmwareIsSilent(b, b.dfu.Step(DfuClients.Notify(h, data)));
    case _ =>
  }

  // ---------------------------------------------------------------- server, bridge and link

  /** The ids whose alerts go on the link, in order. */
  function AcceptedIds(ans: nat, notes: seq<Note>): seq<int>
  {
    if notes == [] || ans == 0 then []
    else (if notes[0].message != [] && notes[0].accepted then [notes[0].id] else []) + AcceptedIds(ans, notes[1..])
  }

  /** The handed ids whose marking post does not arrive. */
  function Missing(handed: seq<int>, arrived: set<int>): seq<int>
  {
    if handed == [] then [] else (if handed[0] in arrived then [] else [handed[0]]) + Missing(handed[1..], arrived)
  }

  datatype Action =
    | Create(id: int, message: seq<text>)
    | OnBridge(e: Event, arrived: set<int>)   // any event on the bridge; the marking posts that arrive
    | Carry                                   // the watch carries out the oldest write
    | Lose                                    // the oldest write fails

  /**
    History: ids whose marking post was lost; ids whose alert write was accepted; and where those alerts are: still on the
    link, carried out, failed, or lost with the link.
   */
  datatype Fates = Fates(
    unposted: seq<int>, accepted: seq<int>, onAir: seq<int>, carried: seq<int>, failed: seq<int>, dropped: seq<int>)

  datatype Sys = Sys(rows: Rows, b: Bridge, f: Fates)
  {
    /** A listing holds pending rows as stored, each once. */
    predicate Lists(notes: seq<Note>)
    {
      && (forall n :: n in notes ==> n.id in rows && rows[n.id] == Row(n.message, true))
      && Distinct(notes)
    }

    predicate Enabled(a: Action)
    {
      match a
      case Create(id, _) => id !in rows
      case OnBridge(e, _) => Lists(Notes(b, e))
      case Carry => b.air != []
      case Lose => b.air != []
    }

    /** Does the oldest write carry an alert? */
    predicate HeadAlerts() { b.air != [] && b.air[0].Alert? && f.onAir != [] }

    function Landed(): Fates
      requires HeadAlerts()
    {
      f.(carried := f.carried + [f.onAir[0]], onAir := f.onAir[1..])
    }

    function Failed(): Fates
      requires HeadAlerts()
    {
      f.(failed := f.failed + [f.onAir[0]], onAir := f.onAir[1..])
    }

    function Issued(e: Event, arrived: set<int>): Fates
    {
      var handed, ids := Handed(b.h.ans, Notes(b, e)), AcceptedIds(b.h.ans, Notes(b, e));
      f.(unposted := f.unposted + Missing(handed, arrived), accepted := f.accepted + ids,
         onAir := if e.Disconnected? then [] else f.onAir + ids,
         dropped := if e.Disconnected? then f.dropped + f.onAir else f.dropped)
    }

    function Step(a: Action): Sys
      requires Enabled(a)
    {
      match a
      case Create(id, message) => this.(rows := Created(rows, id, message))
      case OnBridge(e, arrived) =>
        Sys(Delivered(rows, set id | id in Handed(b.h.ans, Notes(b, e)) && id in arrived), b.Step(e), Issued(e, arrived))
      case Carry => this.(b := b.(air := b.air[1..]), f := if HeadAlerts() then Landed() else f)
      case Lose => this.(b := b.(air := b.air[1..]), f := if HeadAlerts() then Failed() else f)
    }

    predicate Runs(acts: seq<Action>)
      decreases |acts|
    {
      acts == [] || (Enabled(acts[0]) && Step(acts[0]).Runs(acts[1..]))
    }

    function Exec(acts: seq<Action>): Sys
      requires Runs(acts)
      decreases |acts|
    {
      if acts == [] then this else Step(acts[0]).Exec(acts[1..])
    }
  }

  /** Nothing disappears: a row is pending or has been handed over and marked; an empty message stays pending. */
  ghost predicate Conserved(s: Sys)
  {
    forall id :: id in s.rows && !s.rows[id].pending ==> id in s.b.marked && s.rows[id].message != []
  }

  /** No row is dropped, reworded, or made pending again. */
  ghost predicate RowsKept(s: Sys, t: Sys)
  {
    forall id :: id in s.rows ==>
      id in t.rows && t.rows[id].message == s.rows[id].message && (t.rows[id].pending ==> s.rows[id].pending)
  }

  lemma {:induction false} HandedIsListed(ans: nat, notes: seq<Note>, id: int)
    ensures id in Handed(ans, notes) <==> ans != 0 && exists n :: n in notes && n.id == id && n.message != []
    decreases |notes|
  {
    if notes != [] && ans != 0 {
      HandedIsListed(ans, notes[1..], id);
      assert notes == [notes[0]] + notes[1..];
    }
  }

  lemma StepConserves(s: Sys, a: Action)
    requires Conserved(s) && s.Enabled(a)
    ensures Conserved(s.Step(a)) && RowsKept(s, s.Step(a))
    ensures s.b.marked <= s.Step(a).b.marked
    ensures s.Step(a).b.marked != s.b.marked ==> s.b.h.ans != 0
  {
    match a
    case OnBridge(e, arrived) => EventConserves(s, e, arrived);
    case _ =>
  }

  lemma EventConserves(s: Sys, e: Event, arrived: set<int>)
    requires Conserved(s) && s.Lists(Notes(s.b, e))
    ensures var t := s.Step(OnBridge(e, arrived));
            && Conserved(t) && RowsKept(s, t) && s.b.marked <= t.b.marked
            && (t.b.marked != s.b.marked ==> s.b.h.ans != 0)
  {
    EventDelivers(s.b, e);
    HandedRows(s, Notes(s.b, e));
  }

  lemma HandedRows(s: Sys, notes: seq<Note>)
    requires s.Lists(notes)
    ensures forall id :: id in Handed(s.b.h.ans, notes) ==>
              id in s.rows && s.rows[id].message != [] && s.rows[id].pending
  {
    forall id | id in Handed(s.b.h.ans, notes)
      ensures id in s.rows && s.rows[id].message != [] && s.rows[id].pending
    {
      HandedIsListed(s.b.h.ans, notes, id);
    }
  }

  /**
    In every run in which only the bridge marks, each created row is still there with its text, and is pending until
    it has been handed to a non-zero ANS handle and marked.
   */
  lemma {:induction false} PendingUntilHandedOver(s: Sys, acts: seq<Action>)
    requires Conserved(s) && s.Runs(acts)
    ensures Conserved(s.Exec(acts)) && RowsKept(s, s.Exec(acts))
    decreases |acts|
  {
    if acts != [] {
      StepConserves(s, acts[0]);
      PendingUntilHandedOver(s.Step(acts[0]), acts[1..]);
    }
  }

  // ---------------------------------------------------------------- how often a row is handed over

  function Count(ids: seq<int>, id: int): nat { multiset(ids)[id] }

  predicate Settled(s: Sys, id: int) { id in s.rows && !s.rows[id].pending }

  function One(b: bool): nat { if b then 1 else 0 }

  predicate Distinct(notes: seq<Note>) { forall i, j :: 0 <= i < j < |notes| ==> notes[i].id != notes[j].id }

  /** A listing names each id once, so it is handed over at most once, */
  lemma {:induction false} HandedOnce(ans: nat, notes: seq<Note>, id: int)
    requires Distinct(notes)
    ensures Count(Handed(ans, notes), id) == One(id in Handed(ans, notes))
    decreases |notes|
  {
    if notes != [] && ans != 0 {
      HandedOnce(ans, notes[1..], id);
      HandedIsListed(ans, notes[1..], id);
    }
  }

  /** and accepted exactly if it is and its write is accepted. */
  lemma {:induction false} AcceptedOnce(ans: nat, notes: seq<Note>, id: int)
    requires Distinct(notes)
    ensures Count(AcceptedIds(ans, notes), id)
              == One(exists n :: n in notes && ans != 0 && n.id == id && n.message != [] && n.accepted)
    decreases |notes|
  {
    if notes != [] && ans != 0 {
      var head, rest := notes[0], notes[1..];
      AcceptedOnce(ans, rest, id);
      assert forall n :: n in notes <==> n == head || n in rest;
      if head.id == id { assert forall n :: n in rest ==> n.id != id; }
    }
  }

  lemma CountsOnce(ans: nat, notes: seq<Note>, id: int)
    requires Distinct(notes)
    ensures Count(Handed(ans, notes), id) == One(id in Handed(ans, notes))
    ensures Count(AcceptedIds(ans, notes), id)
              == One(exists n :: n in notes && ans != 0 && n.id == id && n.message != [] && n.accepted)
  {
    HandedOnce(ans, notes, id);
    AcceptedOnce(ans, notes, id);
  }

  lemma {:induction false} MissingCounts(handed: seq<int>, arrived: set<int>, id: int)
    ensures Count(Missing(handed, arrived), id) == if id in arrived then 0 else Count(handed, id)
    decreases |handed|
  {
    if handed != [] {
      MissingCounts(handed[1..], arrived, id);
      assert handed == [handed[0]] + handed[1..];
    }
  }

  /** Times handed over, less posts lost, less one once settled: what no step changes. */
  function Account(s: Sys, id: int): int { Count(s.b.marked, id) - Count(s.f.unposted, id) - One(Settled(s, id)) }

  lemma StepAccounts(s: Sys, a: Action, id: int)
    requires s.Enabled(a)
    ensures Account(s.Step(a), id) == Account(s, id)
  {
    match a
    case OnBridge(e, arrived) => EventAccounts(s, e, arrived, id);
    case _ =>
  }

  lemma EventAccounts(s: Sys, e: Event, arrived: set<int>, id: int)
    requires s.Lists(Notes(s.b, e))
    ensures Account(s.Step(OnBridge(e, arrived)), id) == Account(s, id)
  {
    var notes := Notes(s.b, e);
    var handed := Handed(s.b.h.ans, notes);
    EventDelivers(s.b, e);
    HandedRows(s, notes);
    CountsOnce(s.b.h.ans, notes, id);
    MissingCounts(handed, arrived, id);
  }

  lemma {:induction false} RunAccounts(s: Sys, acts: seq<Action>, id: int)
    requires s.Runs(acts)
    ensures Account(s.Exec(acts), id) == Account(s, id)
    decreases |acts|
  {
    if acts != [] {
      StepAccounts(s, acts[0], id);
      RunAccounts(s.Step(acts[0]), acts[1..], id);
    }
  }

  /** Over every run a row is handed over once for each of its marking posts that is lost, and once more if it is settled in it. */
  lemma HandedOncePerPost(s: Sys, acts: seq<Action>, id: int)
    requires s.Runs(acts)
    ensures var u := s.Exec(acts);
            Count(u.b.marked, id) - Count(s.b.marked, id)
              == Count(u.f.unposted, id) - Count(s.f.unposted, id) + One(Settled(u, id)) - One(Settled(s, id))
  {
    RunAccounts(s, acts, id);
  }

  // ---------------------------------------------------------------- where accepted alerts end up

  /** The alerts carry the texts of these rows, in order. */
  ghost predicate Payloads(rows: Rows, alerts: seq<Out>, ids: seq<int>)
  {
    && |alerts| == |ids|
    && forall i :: 0 <= i < |ids| ==> ids[i] in rows && alerts[i] == Alert(AnsPayload(rows[ids[i]].message))
  }

  /** The alerts on the link are those of the rows recorded there. */
  ghost predicate Tied(s: Sys) { Payloads(s.rows, AlertsIn(s.b.air), s.f.onAir) }

  /** Every accepted alert is on the link, carried out, failed or dropped. */
  ghost predicate Balanced(f: Fates)
  {
    multiset(f.accepted) == multiset(f.onAir) + multiset(f.carried) + multiset(f.failed) + multiset(f.dropped)
  }

  ghost predicate Ledger(s: Sys) { Tied(s) && Balanced(s.f) }

  lemma {:induction false} AcceptedAlerts(s: Sys, notes: seq<Note>)
    requires s.Lists(notes)
    ensures Payloads(s.rows, Alerts(s.b.h.ans, notes), AcceptedIds(s.b.h.ans, notes))
    decreases |notes|
  {
    if notes != [] && s.b.h.ans != 0 {
      assert notes[0] in notes && forall n :: n in notes[1..] ==> n in notes;
      AcceptedAlerts(s, notes[1..]);
    }
  }

  lemma BalancedMove(f: Fates)
    requires Balanced(f) && f.onAir != []
    ensures Balanced(f.(carried := f.carried + [f.onAir[0]], onAir := f.onAir[1..]))
    ensures Balanced(f.(failed := f.failed + [f.onAir[0]], onAir := f.onAir[1..]))
  {
    assert f.onAir == [f.onAir[0]] + f.onAir[1..];
  }

  lemma CarryFate(s: Sys)
    requires Ledger(s) && s.b.air != []
    ensures Ledger(s.Step(Carry))
  {
    if s.HeadAlerts() { BalancedMove(s.f); }
  }

  lemma LoseFate(s: Sys)
    requires Ledger(s) && s.b.air != []
    ensures Ledger(s.Step(Lose))
  {
    if s.HeadAlerts() { BalancedMove(s.f); }
  }

  lemma EventFate(s: Sys, e: Event, arrived: set<int>)
    requires Ledger(s) && s.Lists(Notes(s.b, e))
    ensures Ledger(s.Step(OnBridge(e, arrived)))
  {
    var notes := Notes(s.b, e);
    var ids, done := AcceptedIds(s.b.h.ans, notes), set id | id in Handed(s.b.h.ans, notes) && id in arrived;
    EventDelivers(s.b, e);
    AcceptedAlerts(s, notes);
    TiedAfter(s.rows, done, AlertsIn(s.b.air), s.f.onAir, Alerts(s.b.h.ans, notes), ids);
    if e.Disconnected? { NothingOnAir(s.b); }
  }

  lemma NothingOnAir(b: Bridge)
    ensures AlertsIn(b.Step(Disconnected).air) == []
  {
    assert b.Step(Disconnected).air == [];
  }

  lemma TiedAfter(rows: Rows, done: set<int>, alerts: seq<Out>, ids: seq<int>, more: seq<Out>, moreIds: seq<int>)
    requires Payloads(rows, alerts, ids) && Payloads(rows, more, moreIds)
    ensures Payloads(Delivered(rows, done), alerts + more, ids + moreIds)
  {
  }

  /** Every step keeps the ledger. */
  lemma StepKeepsLedger(s: Sys, a: Action)
    requires Ledger(s) && s.Enabled(a)
    ensures Ledger(s.Step(a))
  {
    match a
    case Create(_, _) =>
    case OnBridge(e, arrived) => EventFate(s, e, arrived);
    case Carry => CarryFate(s);
    case Lose => LoseFate(s);
  }

  lemma {:induction false} RunKeepsLedger(s: Sys, acts: seq<Action>)
    requires Ledger(s) && s.Runs(acts)
    ensures Ledger(s.Exec(acts))
    decreases |acts|
  {
    if acts != [] {
      StepKeepsLedger(s, acts[0]);
      RunKeepsLedger(s.Step(acts[0]), acts[1..]);
    }
  }

  /** Alerts ever accepted for a row, by where they are now. */
  function Traced(f: Fates, id: int): nat
  {
    Count(f.onAir, id) + Count(f.carried, id) + Count(f.failed, id) + Count(f.dropped, id)
  }

  lemma SettledStep(s: Sys, a: Action, id: int)
    requires s.Enabled(a) && Settled(s, id)
    ensures Settled(s.Step(a), id) && Count(s.Step(a).f.accepted, id) == Count(s.f.accepted, id)
    ensures Count(s.Step(a).f.onAir, id) <= Count(s.f.onAir, id)
    ensures Count(s.f.onAir, id) == 0 ==> Count(s.Step(a).f.carried, id) == Count(s.f.carried, id)
  {
    match a
    case Create(_, _) =>
    case OnBridge(e, arrived) =>
      var ids := AcceptedIds(s.b.h.ans, Notes(s.b, e));
      CountsOnce(s.b.h.ans, Notes(s.b, e), id);
      assert Count(ids, id) == 0;
    case Carry => HeadCount(s, id);
    case Lose => HeadCount(s, id);
  }

  lemma HeadCount(s: Sys, id: int)
    ensures s.HeadAlerts() ==>
              && Count(s.f.onAir[1..], id) + One(s.f.onAir[0] == id) == Count(s.f.onAir, id)
              && Count(s.f.carried + [s.f.onAir[0]], id) == Count(s.f.carried, id) + One(s.f.onAir[0] == id)
  {
    if s.HeadAlerts() {
      assert s.f.onAir == [s.f.onAir[0]] + s.f.onAir[1..];
    }
  }

  /** For a row that is no longer pending no further alert is ever accepted, and none that has left the link is carried out. */
  lemma {:induction false} SettledStays(s: Sys, acts: seq<Action>, id: int)
    requires s.Runs(acts) && Settled(s, id)
    ensures Settled(s.Exec(acts), id) && Count(s.Exec(acts).f.accepted, id) == Count(s.f.accepted, id)
    ensures Count(s.f.onAir, id) == 0 ==>
              Count(s.Exec(acts).f.onAir, id) == 0 && Count(s.Exec(acts).f.carried, id) == Count(s.f.carried, id)
    decreases |acts|
  {
    if acts != [] {
      SettledStep(s, acts[0], id);
      SettledStays(s.Step(acts[0]), acts[1..], id);
    }
  }

  /** What "marked" means to the server: handed over with the post arrived, whether or not the write was accepted. */
  lemma HandedSettles(s: Sys, e: Event, arrived: set<int>, n: Note)
    requires s.Lists(Notes(s.b, e)) && n in Notes(s.b, e) && s.b.h.ans != 0 && n.message != [] && n.id in arrived
    ensures var t := s.Step(OnBridge(e, arrived));
            Settled(t, n.id) && Count(t.f.accepted, n.id) == Count(s.f.accepted, n.id) + One(n.accepted)
  {
    var notes := Notes(s.b, e);
    HandedIsListed(s.b.h.ans, notes, n.id);
    CountsOnce(s.b.h.ans, notes, n.id);
    SameNote(notes, n);
  }

  lemma SameNote(notes: seq<Note>, n: Note)
    requires n in notes && Distinct(notes)
    ensures forall m :: m in notes && m.id == n.id ==> m == n
  {
  }

  /**
    The notification a poll hands over and whose marking post arrives: then and ever after the alerts on the link,
    carried out, failed or dropped for it are those accepted before and this one, if the stack accepts it; and those on
    the link are in the air. A refused alert is lost for good.
   */
  lemma AlertedIffAccepted(s: Sys, e: Event, arrived: set<int>, n: Note, acts: seq<Action>)
    requires Ledger(s) && s.Lists(Notes(s.b, e))
    requires n in Notes(s.b, e) && s.b.h.ans != 0 && n.message != [] && n.id in arrived
    requires s.Step(OnBridge(e, arrived)).Runs(acts)
    ensures var u := s.Step(OnBridge(e, arrived)).Exec(acts);
            && Settled(u, n.id) && Tied(u)
            && Traced(u.f, n.id) == Traced(s.f, n.id) + One(n.accepted)
  {
    var t := s.Step(OnBridge(e, arrived));
    HandedSettles(s, e, arrived, n);
    StepKeepsLedger(s, OnBridge(e, arrived));
    SettledStays(t, acts, n.id);
    RunKeepsLedger(t, acts);
  }

  /** An alert that a drop finds on the link is lost for good if its row is settled: no alert of the row is carried out any more. */
  lemma DroppedAlertIsLost(s: Sys, arrived: set<int>, id: int, acts: seq<Action>)
    requires Settled(s, id) && s.Step(OnBridge(Disconnected, arrived)).Runs(acts)
    ensures var u := s.Step(OnBridge(Disconnected, arrived)).Exec(acts);
            && Count(u.f.carried, id) == Count(s.f.carried, id) && id !in u.f.onAir
            && Count(s.Step(OnBridge(Disconnected, arrived)).f.dropped, id) == Count(s.f.dropped, id) + Count(s.f.onAir, id)
  {
    var t := s.Step(OnBridge(Disconnected, arrived));
    SettledStep(s, OnBridge(Disconnected, arrived), id);
    assert t.f.onAir == [] && t.f.carried == s.f.carried;
    SettledStays(t, acts, id);
  }
}
