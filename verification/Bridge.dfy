/**
  The bridge between the reminder server and the watch: its state as a value, `Bridge`, with one function per
  handler, and the class `PineTimeBridge` whose methods update fields in place and are proved to follow it.
 */
module Bridges {
  import opened Bytes
  import opened WireFormat
  import opened DfuClients
  import Djb2

  const DFU_TIMEOUT_MS: nat := 300000
  const GRACE_MS: nat := 120000
  const WATCH_READ_INTERVAL_MS: nat := 300000

  datatype CommandType = WRITE_REMINDER | DELETE_REMINDER | SYNC_ALL

  datatype Command = Command(kind: CommandType, data: seq<byte>)

  const DeleteAll: Command := Command(DELETE_REMINDER, [0xFF])

  /** A write accepted by the BLE stack and not yet carried out by the watch. */
  datatype Out = Sent(cmd: Command, handle: nat) | Time | Alert(data: seq<byte>) | Firmware

  /** A pending notification as the server lists it, and whether the stack will accept its write. */
  datatype Note = Note(id: int, message: seq<text>, accepted: bool)

  datatype Poll = PollFailed | Polled(reminders: seq<ApiReminder>, notes: seq<Note>)

  /** The clock reading for a time write: is the local time valid, will the stack accept the write. */
  datatype TimeWrite = TimeWrite(valid: bool, accepted: bool)

  datatype PairReply = NotPolled | Reply(dfuRequested: bool, bin: seq<byte>, dat: seq<byte>)

  datatype LoopInput = LoopInput(accepted: bool, poll: Poll, time: TimeWrite, pair: PairReply)

  /** Characteristic handles, 0 while unknown. */
  datatype Handles = Handles(upload: nat, delete: nat, sync: nat, ans: nat, cts: nat)
  {
    /** A discovery overwrites the handles it finds and leaves the others. */
    function Updated(f: Handles): Handles
    {
      Handles(if f.upload != 0 then f.upload else upload, if f.delete != 0 then f.delete else delete,
              if f.sync != 0 then f.sync else sync, if f.ans != 0 then f.ans else ans,
              if f.cts != 0 then f.cts else cts)
    }
  }

  const NoHandles := Handles(0, 0, 0, 0, 0)

  datatype Found = Found(h: Handles, ctrl: nat, pkt: nat)

  datatype Event =
    | Loop(now: word, input: LoopInput)
    | Open(now: word)
    | Discover(now: word, found: Found, time: TimeWrite)
    | Disconnected
    | WriteDone
    | Notified(handle: nat, data: seq<byte>)

  function Uploads(rs: seq<ApiReminder>): seq<Command>
  {
    seq(|rs|, i requires 0 <= i < |rs| => Command(WRITE_REMINDER, ToWatchReminder(rs[i])))
  }

  /** An alert on the wire: category, count and a reserved byte, then at most 97 bytes of text. */
  function AnsPayload(message: seq<text>): (s: seq<byte>)
    ensures |s| == 3 + Min(|message|, 97)
  {
    var header: seq<byte> := [0x07, 0x01, 0x00];
    header + message[..Min(|message|, 97)]
  }

  /**
    The bridge. The last three fields are history: the writes on the link, the notifications marked so far, and the
    snapshot whose batch was queued last.
   */
  datatype Bridge = Bridge(
    queue: seq<Command>, lastHash: word, pending: byte, busy: bool, connected: bool, discovered: bool,
    h: Handles, api: seq<ApiReminder>, dfu: Client, dfuStart: word, postDfu: bool, postDfuTime: word,
    pollInterval: word, lastPoll: word, lastWatchPoll: word,
    air: seq<Out>, marked: seq<int>, synced: seq<ApiReminder>)
  {
    function WithDfu(d: Client): Bridge
    {
      this.(dfu := d,
            air := air + if |d.writes| > |dfu.writes| then seq(|d.writes| - |dfu.writes|, _ => Firmware) else [])
    }

    // ------------------------------------------------------------ reminder sync

    function Batch(rs: seq<ApiReminder>): seq<Command>
    {
      (if h.delete != 0 then [DeleteAll] else []) + Uploads(rs)
    }

    /** Does the sync check find something to send? */
    predicate SyncDue() { h.upload != 0 && Djb2.Hash(Encode(Snapshot(api))) != lastHash }

    function SyncReminders(): Bridge
    {
      if SyncDue() then
        this.(lastHash := Djb2.Hash(Encode(Snapshot(api))), queue := queue + Batch(Snapshot(api)), synced := Snapshot(api))
      else this
    }

    function HandleFor(c: Command): nat
    {
      match c.kind
      case WRITE_REMINDER => h.upload
      case DELETE_REMINDER => h.delete
      case SYNC_ALL => h.sync
    }

    function ProcessNext(accepted: bool): Bridge
    {
      if queue == [] then this
      else if HandleFor(queue[0]) == 0 then this.(queue := queue[1..])
      else if accepted then this.(busy := true, air := air + [Sent(queue[0], HandleFor(queue[0]))], queue := queue[1..])
      else this.(queue := queue[1..])
    }

    // ------------------------------------------------------------ other writes

    function CountUp(): Bridge { this.(pending := (pending + 1) % 256) }

    function CountDown(): Bridge { if pending > 0 then this.(pending := pending - 1) else this }

    function SyncTime(now: word, t: TimeWrite): Bridge
    {
      if h.cts == 0 || !t.valid || !t.accepted then this
      else this.CountUp().(air := air + [Time], lastWatchPoll := now)
    }

    function SendNotification(message: seq<text>, accepted: bool): Bridge
    {
      if h.ans == 0 || !accepted then this
      else this.CountUp().(air := air + [Alert(AnsPayload(message))])
    }

    /** Sends the listed notifications in order; stops at the first non-empty one if there is no ANS handle. */
    function Deliver(notes: seq<Note>): Bridge
      decreases |notes|
    {
      if notes == [] then this
      else if notes[0].message == [] then this.Deliver(notes[1..])
      else if h.ans == 0 then this
      else
        this.SendNotification(notes[0].message, notes[0].accepted)
            .(marked := marked + [notes[0].id]).Deliver(notes[1..])
    }

    function PollApi(p: Poll): Bridge
    {
      match p
      case PollFailed => this
      case Polled(rs, notes) => this.(api := rs).Deliver(notes)
    }

    // ------------------------------------------------------------ loop()

    predicate DfuActive() { !dfu.Quiet() }

    function Supervise(now: word): Bridge
      requires DfuActive()
    {
      var b := if dfuStart == 0 then this.(dfuStart := now) else this;
      if Wrap(now - b.dfuStart) > DFU_TIMEOUT_MS then b.(dfu := b.dfu.ResetAll(), dfuStart := 0)
      else b.WithDfu(b.dfu.Step(Process))
    }

    predicate TimedOut(now: word) { DfuActive() && dfuStart != 0 && Wrap(now - dfuStart) > DFU_TIMEOUT_MS }

    function AfterDfu(now: word): Bridge
    {
      if dfu.state.COMPLETE? || dfu.state.FAILED? then
        this.(postDfu := true, postDfuTime := now, lastWatchPoll := 0, dfu := dfu.ResetAll())
      else this
    }

    function EndGrace(now: word): Bridge
    {
      if postDfu && postDfuTime > 0 && Wrap(now - postDfuTime) > GRACE_MS then
        this.(postDfu := false, postDfuTime := 0, lastHash := 0)
      else this
    }

    function ProcessQueue(accepted: bool): Bridge
    {
      if !busy && queue != [] && discovered && connected then this.ProcessNext(accepted) else this
    }

    function SyncIfAllowed(): Bridge { if dfu.state.IDLE? && !postDfu then this.SyncReminders() else this }

    function PollIfDue(now: word, p: Poll): Bridge
    {
      if Wrap(now - lastPoll) > pollInterval then this.(lastPoll := now).PollApi(p).SyncIfAllowed() else this
    }

    function RefreshWatch(now: word, t: TimeWrite): Bridge
    {
      if connected && discovered && queue == [] && !busy && Wrap(now - lastWatchPoll) > WATCH_READ_INTERVAL_MS then
        this.(lastWatchPoll := now).SyncTime(now, t)
      else this
    }

    function CheckPairing(r: PairReply): Bridge
    {
      if r.Reply? && r.dfuRequested && dfu.state.IDLE? then this.WithDfu(dfu.Begin(r.bin, r.dat)) else this
    }

    function LoopStep(now: word, i: LoopInput): Bridge
    {
      if DfuActive() && !TimedOut(now) then this.Supervise(now)
      else this.PastSupervision(now).AfterDfu(now).EndGrace(now).ProcessQueue(i.accepted)
               .PollIfDue(now, i.poll).RefreshWatch(now, i.time).CheckPairing(i.pair)
    }

    /** What the DFU block leaves behind when loop() goes on past it. */
    function PastSupervision(now: word): Bridge
    {
      if DfuActive() then this.Supervise(now) else this.(dfuStart := 0)
    }

    // ------------------------------------------------------------ GATT events

    function OnOpen(now: word): Bridge { this.(connected := true, lastWatchPoll := now) }

    /** Queued or pending work makes the next sync start over. */
    function DropPendingWork(): Bridge
    {
      if queue != [] || pending > 0 then this.(lastHash := 0, queue := []) else this
    }

    /** Handles and counters of the old link mean nothing any more, and every write it still carried is lost. */
    function ForgetLink(): Bridge { this.(pending := 0, h := NoHandles, air := []) }

    function OnDisconnect(): Bridge
    {
      this.(connected := false, discovered := false).DropPendingWork().ForgetLink()
    }

    function OnWriteDone(): Bridge { this.(busy := false).CountDown() }

    function OnNotify(handle: nat, data: seq<byte>): Bridge { this.WithDfu(dfu.Step(Notify(handle, data))) }

    function DiscoverServices(now: word, f: Found, t: TimeWrite): Bridge
    {
      var b := this.(h := h.Updated(f.h));
      if dfu.state.CONNECTING? && f.ctrl != 0 && f.pkt != 0 then b.WithDfu(dfu.ServicesDiscovered(f.ctrl, f.pkt))
      else b.SyncTime(now, t).UseReminderService()
    }

    function UseReminderService(): Bridge
    {
      if h.upload != 0 && h.sync != 0 then this.(discovered := true).SyncIfAllowed().(lastPoll := 0) else this
    }

    function Step(e: Event): Bridge
    {
      match e
      case Loop(now, input) => this.LoopStep(now, input)
      case Open(now) => this.OnOpen(now)
      case Discover(now, f, t) => this.DiscoverServices(now, f, t)
      case Disconnected => this.OnDisconnect()
      case WriteDone => this.OnWriteDone()
      case Notified(h, data) => this.OnNotify(h, data)
    }
  }

  function Booted(pollInterval: word, now: word): Bridge
  {
    Bridge([], 0, 0, false, false, false, NoHandles, [], Fresh, 0, false, 0,
           pollInterval, Wrap(now - pollInterval + 10000), 0, [], [], [])
  }

  class PineTimeBridge {
    const dfuClient: DfuClient
    const pollInterval: word
    var commandQueue: seq<Command>
    var lastSyncHash: word
    var pendingWrites: byte
    var bleBusy: bool
    var bleConnected: bool
    var servicesDiscovered: bool
    var handles: Handles
    var apiReminders: seq<ApiReminder>
    var dfuStart: word
    var postDfu: bool
    var postDfuTime: word
    var lastPoll: word
    var lastWatchPoll: word
    ghost var air: seq<Out>
    ghost var marked: seq<int>
    ghost var synced: seq<ApiReminder>

    ghost function View(): Bridge
      reads this, dfuClient
    {
      Bridge(commandQueue, lastSyncHash, pendingWrites, bleBusy, bleConnected, servicesDiscovered,
             handles, apiReminders, dfuClient.View(), dfuStart, postDfu, postDfuTime,
             pollInterval, lastPoll, lastWatchPoll, air, marked, synced)
    }

    constructor (interval: word, now: word)
      ensures View() == Booted(interval, now) && fresh(dfuClient)
    {
      dfuClient := new DfuClient();
      pollInterval := interval;
      commandQueue, lastSyncHash, pendingWrites := [], 0, 0;
      bleBusy, bleConnected, servicesDiscovered := false, false, false;
      handles := NoHandles;
      apiReminders, dfuStart, postDfu, postDfuTime := [], 0, false, 0;
      lastPoll, lastWatchPoll := Wrap(now - interval + 10000), 0;
      air, marked, synced := [], [], [];
    }

    /** Accounts for the writes the DFU client has just issued on the same connection. */
    ghost method CarryFirmware(before: Client)
      modifies this`air
      ensures air == old(air) + if |dfuClient.writes| > |before.writes|
                                then seq(|dfuClient.writes| - |before.writes|, _ => Firmware) else []
    {
      if |dfuClient.writes| > |before.writes| {
        air := air + seq(|dfuClient.writes| - |before.writes|, _ => Firmware);
      }
    }

    method CollectEnabled() returns (enabled: seq<ApiReminder>)
      ensures enabled == Enabled(apiReminders)
    {
      enabled := [];
      for i := 0 to |apiReminders|
        invariant enabled == Enabled(apiReminders[..i])
      {
        assert apiReminders[..i + 1][..i] == apiReminders[..i];
        if apiReminders[i].enabled {
          enabled := enabled + [apiReminders[i]];
        }
      }
      assert apiReminders[..|apiReminders|] == apiReminders;
    }

    static method BuildBuffer(enabled: seq<ApiReminder>, count: nat) returns (data: seq<byte>)
      requires count <= |enabled| && count <= MAX_REMINDERS
      ensures data == Encode(enabled[..count])
    {
      data := [count];
      for i := 0 to count
        invariant data == [count] + Records(enabled[..i])
      {
        assert enabled[..i + 1][..i] == enabled[..i];
        data := data + ToWatchReminder(enabled[i]);
      }
    }

    method QueueBatch(rs: seq<ApiReminder>)
      modifies this`commandQueue
      ensures View() == old(View()).(queue := old(commandQueue) + old(View()).Batch(rs))
    {
      if handles.delete != 0 {
        commandQueue := commandQueue + [Command(DELETE_REMINDER, [0xFF])];
      }
      ghost var start := commandQueue;
      for i := 0 to |rs|
        invariant commandQueue == start + Uploads(rs[..i])
      {
        assert Uploads(rs[..i + 1]) == Uploads(rs[..i]) + [Command(WRITE_REMINDER, ToWatchReminder(rs[i]))];
        commandQueue := commandQueue + [Command(WRITE_REMINDER, ToWatchReminder(rs[i]))];
      }
      assert rs[..|rs|] == rs;
      assert commandQueue == old(commandQueue) + old(View()).Batch(rs);
    }

    method SyncRemindersToWatch()
      modifies this`lastSyncHash, this`commandQueue, this`synced
      ensures View() == old(View()).SyncReminders()
    {
      var enabled := CollectEnabled();
      var count := Min(|enabled|, MAX_REMINDERS);
      var data := BuildBuffer(enabled, count);
      var hash := Djb2.ComputeHash(data);
      if hash == lastSyncHash { return; }
      if handles.upload == 0 { return; }
      lastSyncHash := hash;
      synced := enabled[..count];
      assert View() == old(View()).(lastHash := hash, synced := enabled[..count]);
      QueueBatch(enabled[..count]);
    }

    method ProcessNextCommand(accepted: bool)
      modifies this
      ensures View() == old(View()).ProcessNext(accepted)
    {
      if commandQueue == [] { return; }
      var cmd := commandQueue[0];
      var handle := 0;
      match cmd.kind {
        case WRITE_REMINDER => handle := handles.upload;
        case DELETE_REMINDER => handle := handles.delete;
        case SYNC_ALL => handle := handles.sync;
      }
      if handle == 0 {
        commandQueue := commandQueue[1..];
        return;
      }
      if accepted {
        bleBusy := true;
        air := air + [Sent(cmd, handle)];
      }
      commandQueue := commandQueue[1..];
    }

    method SyncTime(now: word, t: TimeWrite)
      modifies this
      ensures View() == old(View()).SyncTime(now, t)
    {
      if handles.cts == 0 { return; }
      if !t.valid { return; }
      pendingWrites := (pendingWrites + 1) % 256;
      if t.accepted {
        air := air + [Time];
        lastWatchPoll := now;
      } else {
        pendingWrites := (pendingWrites + 255) % 256;
      }
    }

    method SendNotification(message: seq<text>, accepted: bool)
      modifies this
      ensures View() == old(View()).SendNotification(message, accepted)
    {
      if handles.ans == 0 { return; }
      pendingWrites := (pendingWrites + 1) % 256;
      if accepted {
        air := air + [Alert(AnsPayload(message))];
      } else {
        pendingWrites := (pendingWrites + 255) % 256;
      }
    }

    method PollApi(p: Poll)
      modifies this
      ensures View() == old(View()).PollApi(p)
    {
      if p.PollFailed? { return; }
      apiReminders := p.reminders;
      for i := 0 to |p.notes|
        invariant View().Deliver(p.notes[i..]) == old(View()).(api := p.reminders).Deliver(p.notes)
      {
        if p.notes[i].message != [] {
          if handles.ans == 0 { return; }
          SendNotification(p.notes[i].message, p.notes[i].accepted);
          marked := marked + [p.notes[i].id];
        }
      }
    }

    method CheckPairingRequest(r: PairReply)
      modifies this, dfuClient
      ensures View() == old(View()).CheckPairing(r)
    {
      if r.Reply? && r.dfuRequested && dfuClient.state == IDLE {
        ghost var before := dfuClient.View();
        dfuClient.Start(r.bin, r.dat);
        CarryFirmware(before);
      }
    }

    method ContinueUpdate()
      modifies this`air, dfuClient
      ensures View() == old(View()).WithDfu(old(View()).dfu.Step(Process))
    {
      ghost var before := dfuClient.View();
      dfuClient.Process();
      CarryFirmware(before);
    }

    method EndUpdate()
      modifies this`dfuStart, dfuClient
      ensures View() == old(View()).(dfu := old(View()).dfu.ResetAll(), dfuStart := 0)
    {
      dfuClient.Reset();
      dfuStart := 0;
    }

    method StampStart(now: word)
      modifies this`dfuStart
      ensures View() == old(View()).(dfuStart := if old(dfuStart) == 0 then now else old(dfuStart))
    {
      if dfuStart == 0 { dfuStart := now; }
    }

    method SuperviseActive(now: word) returns (done: bool)
      requires View().DfuActive()
      modifies this, dfuClient
      ensures done == !old(View()).TimedOut(now) && View() == old(View()).Supervise(now)
    {
      StampStart(now);
      done := Wrap(now - dfuStart) <= DFU_TIMEOUT_MS;
      if done { ContinueUpdate(); } else { EndUpdate(); }
    }

    /** The DFU block at the top of loop(); `done` means loop() returns right after it. */
    method SuperviseDfu(now: word) returns (done: bool)
      modifies this, dfuClient
      ensures done == (old(View()).DfuActive() && !old(View()).TimedOut(now))
      ensures View() == if done then old(View()).Supervise(now) else old(View()).PastSupervision(now)
    {
      if dfuClient.state != IDLE && dfuClient.state != COMPLETE && dfuClient.state != FAILED {
        done := SuperviseActive(now);
      } else {
        dfuStart := 0;
        done := false;
      }
    }

    method NoteDfuEnd(now: word)
      modifies this, dfuClient
      ensures View() == old(View()).AfterDfu(now)
    {
      if dfuClient.state == COMPLETE || dfuClient.state == FAILED {
        postDfu, postDfuTime := true, now;
        lastWatchPoll := 0;
        dfuClient.Reset();
      }
    }

    method EndGrace(now: word)
      modifies this
      ensures View() == old(View()).EndGrace(now)
    {
      if postDfu && postDfuTime > 0 && Wrap(now - postDfuTime) > GRACE_MS {
        postDfu, postDfuTime := false, 0;
        lastSyncHash := 0;
      }
    }

    method PollIfDue(now: word, p: Poll)
      modifies this
      ensures View() == old(View()).PollIfDue(now, p)
    {
      if Wrap(now - lastPoll) > pollInterval {
        lastPoll := now;
        PollApi(p);
        if dfuClient.state == IDLE && !postDfu {
          SyncRemindersToWatch();
        }
      }
    }

    method RefreshWatch(now: word, t: TimeWrite)
      modifies this
      ensures View() == old(View()).RefreshWatch(now, t)
    {
      if bleConnected && servicesDiscovered && commandQueue == [] && !bleBusy {
        if Wrap(now - lastWatchPoll) > WATCH_READ_INTERVAL_MS {
          lastWatchPoll := now;
          SyncTime(now, t);
        }
      }
    }

    method LoopOnce(now: word, input: LoopInput)
      modifies this, dfuClient
      ensures View() == old(View()).LoopStep(now, input)
    {
      var done := SuperviseDfu(now);
      if done { return; }
      NoteDfuEnd(now);
      EndGrace(now);
      if !bleBusy && commandQueue != [] && servicesDiscovered && bleConnected {
        ProcessNextCommand(input.accepted);
      }
      PollIfDue(now, input.poll);
      RefreshWatch(now, input.time);
      CheckPairingRequest(input.pair);
    }

    method OnOpen(now: word)
      modifies this
      ensures View() == old(View()).OnOpen(now)
    {
      bleConnected := true;
      lastWatchPoll := now;
    }

    method DropPendingWork()
      modifies this`lastSyncHash, this`commandQueue
      ensures View() == old(View()).DropPendingWork()
    {
      if commandQueue != [] || pendingWrites > 0 {
        lastSyncHash := 0;
        commandQueue := [];
      }
    }

    method ForgetLink()
      modifies this`pendingWrites, this`handles, this`air
      ensures View() == old(View()).ForgetLink()
    {
      pendingWrites := 0;
      handles := NoHandles;
      air := [];
    }

    method OnDisconnect()
      modifies this
      ensures View() == old(View()).OnDisconnect()
    {
      bleConnected, servicesDiscovered := false, false;
      assert View() == old(View()).(connected := false, discovered := false);
      DropPendingWork();
      ForgetLink();
    }

    method OnWriteDone()
      modifies this
      ensures View() == old(View()).OnWriteDone()
    {
      bleBusy := false;
      if pendingWrites > 0 { pendingWrites := pendingWrites - 1; }
    }

    method OnNotify(handle: nat, data: seq<byte>)
      modifies this, dfuClient
      ensures View() == old(View()).OnNotify(handle, data)
    {
      ghost var before := dfuClient.View();
      dfuClient.OnNotify(handle, data);
      CarryFirmware(before);
    }

    method DiscoverServices(now: word, f: Found, t: TimeWrite)
      modifies this, dfuClient
      ensures View() == old(View()).DiscoverServices(now, f, t)
    {
      handles := handles.Updated(f.h);
      if dfuClient.state == CONNECTING {
        if f.ctrl != 0 && f.pkt != 0 {
          ghost var before := dfuClient.View();
          dfuClient.OnServicesDiscovered(f.ctrl, f.pkt);
          CarryFirmware(before);
          return;
        }
      }
      SyncTime(now, t);
      UseReminderService();
    }

    method UseReminderService()
      modifies this
      ensures View() == old(View()).UseReminderService()
    {
      if handles.upload != 0 && handles.sync != 0 {
        servicesDiscovered := true;
        if dfuClient.state == IDLE && !postDfu {
          SyncRemindersToWatch();
        }
        lastPoll := 0;
      }
    }
  }
}
