/** From the server's table to the watch: what a quiet, successfully polled system guarantees. */
module EndToEnd {
  import opened Bytes
  import opened WireFormat
  import opened ReminderTable
  import opened Bridges
  import SyncProtocol
  import Recovery
  import Polling
  import Djb2

  /** The records a watch should hold for a user. */
  function Expected(rows: Rows, user: int): SyncProtocol.WatchMap
    requires Keyed(rows)
  {
    var es := Snapshot(List(rows, user));
    SnapshotIsLowestEnabled(rows, user);
    map k: byte | Key(user, k) in rows && rows[Key(user, k)] in es :: ToWatchReminder(rows[Key(user, k)])
  }

  ghost predicate Shows(w: SyncProtocol.WatchMap, es: seq<ApiReminder>)
  {
    forall e :: e in es ==> e.reminderId in w && w[e.reminderId] == ToWatchReminder(e)
  }

  lemma {:induction false} RecordsOfIncreasing(es: seq<ApiReminder>)
    requires Increasing(es)
    ensures Shows(SyncProtocol.RecordsOf(es), es)
    decreases |es|
  {
    if es != [] {
      var init, last := es[..|es| - 1], es[|es| - 1];
      RecordsOfIncreasing(init);
      SyncProtocol.UploadSnoc(es, map[]);
      assert es == init + [last];
    }
  }

  lemma RecordsAreExpected(rows: Rows, user: int)
    requires Keyed(rows)
    ensures SyncProtocol.RecordsOf(Snapshot(List(rows, user))) == Expected(rows, user)
  {
    var es := Snapshot(List(rows, user));
    SnapshotIsLowestEnabled(rows, user);
    RecordsOfIncreasing(es);
    SyncProtocol.UploadsOverlay(es, map[]);
    var w, x := SyncProtocol.RecordsOf(es), Expected(rows, user);
    forall k: byte
      ensures k in w <==> k in x
      ensures k in w ==> w[k] == x[k]
    {
      if k in w {
        var e :| e in es && e.reminderId == k;
      }
    }
  }

  /**
    After any reliable run whose last successful poll listed the server's table, with a sync check at or after that poll,
    nothing queued or in flight and a hash cached, the watch holds exactly the records of the (at most 56) enabled rows
    with the lowest slots, or those of an earlier snapshot whose buffer shares its hash.
   */
  lemma {:induction false} WatchMatchesServer(
      rows: Rows, user: int, pollInterval: word, now: word, watch: SyncProtocol.WatchMap, acts: seq<SyncProtocol.Action>)
    requires Keyed(rows)
    requires SyncProtocol.Boot(pollInterval, now, watch).RunsReliably(acts)
    ensures SyncProtocol.Boot(pollInterval, now, watch).Runs(acts)
    ensures var s0 := SyncProtocol.Boot(pollInterval, now, watch);
            var s := s0.Exec(acts);
            var current := Snapshot(List(rows, user));
            Polling.LastListed(s0, acts, []) == List(rows, user) && Polling.Checked(s0, acts, true)
            && SyncProtocol.Work(s.b) == [] && s.b.lastHash != 0 ==>
              s.watch == Expected(rows, user) || SyncProtocol.CollidesWith(s0, acts, s.b.synced, current, s.watch)
  {
    var s0 := SyncProtocol.Boot(pollInterval, now, watch);
    SyncProtocol.ReliablyRuns(s0, acts);
    Polling.HoldsLastListed(s0, acts);
    Polling.CheckedIsCached(s0, acts, true);
    SyncProtocol.Quiescence(pollInterval, now, watch, acts);
    RecordsAreExpected(rows, user);
  }

  /**
    Recovery, end to end: after any run whose last successful poll listed the server's table and a loss the bridge has
    noticed, with no update running or just ended, a reconnect that does not lead to the jam, and any interleaving of
    events that loses no command, with the server unchanged and its snapshot's hash not 0: as soon as no command is
    outstanding the watch holds exactly the records of the server's table, whatever it held before.
   */
  lemma {:induction false} RecoveryMatchesServer(
      rows: Rows, user: int, pollInterval: word, start: word, watch: SyncProtocol.WatchMap, before: seq<SyncProtocol.Action>,
      kept: nat, now: word, f: Found, tw: TimeWrite, acts: seq<SyncProtocol.Action>)
    requires Keyed(rows) && Djb2.Hash(Encode(Snapshot(List(rows, user)))) != 0
    requires var s0 := SyncProtocol.Boot(pollInterval, start, watch);
             s0.Runs(before) && Polling.LastListed(s0, before, []) == List(rows, user)
    requires var s := SyncProtocol.Boot(pollInterval, start, watch).Exec(before);
             && Recovery.Recovers(s.b) && Recovery.AllFound(f) && s.Enabled(SyncProtocol.Drop(kept))
             && Recovery.Unjams(s.b.busy, kept, f, tw)
             && s.Runs(Recovery.Reconnect(kept, now, f, tw))
             && Recovery.RunsCalmly(s.Exec(Recovery.Reconnect(kept, now, f, tw)), acts)
    ensures var t := SyncProtocol.Boot(pollInterval, start, watch).Exec(before).Exec(Recovery.Reconnect(kept, now, f, tw));
            t.Runs(acts) && (SyncProtocol.Work(t.Exec(acts).b) == [] ==> t.Exec(acts).watch == Expected(rows, user))
  {
    Polling.HoldsLastListed(SyncProtocol.Boot(pollInterval, start, watch), before);
    Recovery.SyncHeals(SyncProtocol.Boot(pollInterval, start, watch).Exec(before), kept, now, f, tw, acts);
    RecordsAreExpected(rows, user);
  }
}
