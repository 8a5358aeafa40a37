/** Reminders as the bridge knows them and as the watch reads them: 72-byte records behind a count byte. */
module WireFormat {
  import opened Bytes

  const RECORD_SIZE: nat := 72
  const MESSAGE_SIZE: nat := 64
  const MAX_REMINDERS: nat := 56

  datatype ApiReminder = ApiReminder(
    reminderId: byte, hours: byte, minutes: byte, recurrence: byte, priority: byte,
    month: byte, day: byte, message: seq<text>, enabled: bool)

  function Zeros(n: nat): seq<byte> { seq(n, _ => 0) }

  function Flags(r: ApiReminder): byte { (if r.enabled then 1 else 0) + r.priority % 4 * 2 }

  function MessageField(message: seq<text>): (s: seq<byte>)
    ensures |s| == MESSAGE_SIZE
  {
    var len := Min(|message|, MESSAGE_SIZE - 1);
    message[..len] + Zeros(MESSAGE_SIZE - len)
  }

  /** The packed WatchReminder struct. */
  function ToWatchReminder(r: ApiReminder): (s: seq<byte>)
    ensures |s| == RECORD_SIZE
  {
    [2, r.reminderId, r.hours, r.minutes, r.recurrence, Flags(r), r.month, r.day] + MessageField(r.message)
  }

  function Records(rs: seq<ApiReminder>): (s: seq<byte>)
    ensures |s| == RECORD_SIZE * |rs|
  {
    if rs == [] then [] else Records(rs[..|rs| - 1]) + ToWatchReminder(rs[|rs| - 1])
  }

  /** The reminders that are synced: the enabled ones, at most MAX_REMINDERS of them, in server order. */
  function Enabled(rs: seq<ApiReminder>): (es: seq<ApiReminder>)
    ensures |es| <= |rs|
  {
    if rs == [] then []
    else
      var es := Enabled(rs[..|rs| - 1]);
      if rs[|rs| - 1].enabled then es + [rs[|rs| - 1]] else es
  }

  function Snapshot(api: seq<ApiReminder>): (es: seq<ApiReminder>)
    ensures |es| <= MAX_REMINDERS
  {
    var es := Enabled(api);
    es[..Min(|es|, MAX_REMINDERS)]
  }

  function Encode(rs: seq<ApiReminder>): (s: seq<byte>)
    requires |rs| <= MAX_REMINDERS
  {
    [|rs|] + Records(rs)
  }

  // ---------------------------------------------------------------- reading it back

  /** The C string at the start of a message field. */
  function CString(s: seq<byte>): seq<text>
  {
    if s == [] || s[0] == 0 then [] else [s[0]] + CString(s[1..])
  }

  function FromWatchReminder(s: seq<byte>): ApiReminder
    requires |s| == RECORD_SIZE
  {
    ApiReminder(s[1], s[2], s[3], s[4], s[5] / 2 % 4, s[6], s[7], CString(s[8..]), s[5] % 2 == 1)
  }

  function DecodeRecords(s: seq<byte>, n: nat): seq<ApiReminder>
    requires |s| == RECORD_SIZE * n
  {
    if n == 0 then []
    else DecodeRecords(s[..RECORD_SIZE * (n - 1)], n - 1) + [FromWatchReminder(s[RECORD_SIZE * (n - 1)..])]
  }

  datatype Decoded = Malformed | Reminders(list: seq<ApiReminder>)

  function Decode(s: seq<byte>): Decoded
  {
    if |s| < 1 || |s| != 1 + RECORD_SIZE * (s[0] as nat) then Malformed
    else Reminders(DecodeRecords(s[1..], s[0]))
  }

  /** What survives the record format: two priority bits and 63 bytes of message. */
  function Normal(r: ApiReminder): ApiReminder
  {
    r.(priority := r.priority % 4, message := r.message[..Min(|r.message|, MESSAGE_SIZE - 1)])
  }

  function NormalAll(rs: seq<ApiReminder>): (ns: seq<ApiReminder>)
    ensures |ns| == |rs|
  {
    seq(|rs|, i requires 0 <= i < |rs| => Normal(rs[i]))
  }

  lemma {:induction false} CStringOfPadded(m: seq<text>, n: nat)
    requires n > 0
    ensures CString(m + Zeros(n)) == m
  {
    if m == [] {
      assert (m + Zeros(n))[0] == 0;
    } else {
      assert (m + Zeros(n))[1..] == m[1..] + Zeros(n);
      CStringOfPadded(m[1..], n);
    }
  }

  lemma RecordRoundTrip(r: ApiReminder)
    ensures FromWatchReminder(ToWatchReminder(r)) == Normal(r)
  {
    var len := Min(|r.message|, MESSAGE_SIZE - 1);
    CStringOfPadded(r.message[..len], MESSAGE_SIZE - len);
    assert ToWatchReminder(r)[8..] == MessageField(r.message);
    var p := r.priority % 4;
    assert p == 0 || p == 1 || p == 2 || p == 3;
  }

  lemma {:induction false} RecordsRoundTrip(rs: seq<ApiReminder>)
    ensures DecodeRecords(Records(rs), |rs|) == NormalAll(rs)
  {
    if rs != [] {
      var init, last := rs[..|rs| - 1], rs[|rs| - 1];
      RecordsRoundTrip(init);
      RecordRoundTrip(last);
      assert NormalAll(rs) == NormalAll(init) + [Normal(last)];
    }
  }

  /** Decoding the sync buffer gives the same reminders, in order, up to the format's normalisation. */
  lemma SyncBufferRoundTrip(rs: seq<ApiReminder>)
    requires |rs| <= MAX_REMINDERS
    ensures Decode(Encode(rs)) == Reminders(NormalAll(rs))
  {
    RecordsRoundTrip(rs);
    assert Encode(rs)[1..] == Records(rs);
  }

  lemma NormalRecord(r: ApiReminder)
    ensures ToWatchReminder(Normal(r)) == ToWatchReminder(r)
  {
  }

  lemma {:induction false} NormalRecords(rs: seq<ApiReminder>)
    ensures Records(NormalAll(rs)) == Records(rs)
  {
    if rs != [] {
      var init, last := rs[..|rs| - 1], rs[|rs| - 1];
      NormalRecords(init);
      NormalRecord(last);
      assert NormalAll(rs) == NormalAll(init) + [Normal(last)];
      assert NormalAll(rs)[..|rs| - 1] == NormalAll(init);
    }
  }

  /** Two lists have the same sync buffer exactly when they are the same after normalisation. */
  lemma EncodeInjective(a: seq<ApiReminder>, b: seq<ApiReminder>)
    requires |a| <= MAX_REMINDERS && |b| <= MAX_REMINDERS
    ensures Encode(a) == Encode(b) <==> NormalAll(a) == NormalAll(b)
  {
    SyncBufferRoundTrip(a);
    SyncBufferRoundTrip(b);
    NormalRecords(a);
    NormalRecords(b);
  }

  lemma {:induction false} RecordsSplit(a: seq<ApiReminder>, b: seq<ApiReminder>)
    ensures Records(a + b) == Records(a) + Records(b)
  {
    if b == [] {
      assert a + b == a;
    } else {
      RecordsSplit(a, b[..|b| - 1]);
      var init, last := b[..|b| - 1], b[|b| - 1];
      assert (a + b)[..|a + b| - 1] == a + init && (a + b)[|a + b| - 1] == last;
      assert Records(a + b) == (Records(a) + Records(init)) + ToWatchReminder(last);
    }
  }

  /** Nothing but the enabled reminders is synced, and none of them is skipped or repeated. */
  lemma {:induction false} EnabledIsFilter(rs: seq<ApiReminder>, r: ApiReminder)
    ensures multiset(Enabled(rs))[r] == if r.enabled then multiset(rs)[r] else 0
    decreases |rs|
  {
    if rs != [] {
      var init, last := rs[..|rs| - 1], rs[|rs| - 1];
      assert rs == init + [last];
      EnabledIsFilter(init, r);
    }
  }
}
