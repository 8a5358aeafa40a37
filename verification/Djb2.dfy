/** The 32-bit djb2 hash the bridge compares to decide whether the reminders have changed. */
module Djb2 {
  import opened Bytes
  import opened WireFormat

  const SEED: word := 5381

  /** One byte: ((h << 5) + h) + b in 32-bit arithmetic. */
  function Mix(h: word, b: byte): word { Wrap(33 * h + b) }

  function From(h: word, s: seq<byte>): word
  {
    if s == [] then h else Mix(From(h, s[..|s| - 1]), s[|s| - 1])
  }

  function Hash(s: seq<byte>): word { From(SEED, s) }

  /** The shift in ((h << 5) + h) + b drops its high bits before the additions. */
  lemma ShiftAdd(h: word, b: byte)
    ensures Wrap(Wrap(h * 32) + h + b) == Mix(h, b)
  {
    var q := h * 32 / WORD;
    assert 33 * h + b == WORD * q + (Wrap(h * 32) + h + b);
    WrapShift(Wrap(h * 32) + h + b, q);
  }

  method ComputeHash(data: seq<byte>) returns (hash: word)
    ensures hash == Hash(data)
  {
    hash := SEED;
    for i := 0 to |data|
      invariant hash == From(SEED, data[..i])
    {
      assert data[..i + 1] == data[..i] + [data[i]];
      ShiftAdd(hash, data[i]);
      FromSnoc(SEED, data[..i], data[i]);
      hash := Wrap(Wrap(hash * 32) + hash + data[i]);
    }
    assert data[..|data|] == data;
  }

  lemma {:induction false} FromSplit(h: word, a: seq<byte>, b: seq<byte>)
    ensures From(h, a + b) == From(From(h, a), b)
    decreases |b|
  {
    if b == [] {
      assert a + b == a;
    } else {
      FromSplit(h, a, b[..|b| - 1]);
      assert (a + b)[..|a + b| - 1] == a + b[..|b| - 1];
    }
  }

  /** 33 is a unit modulo 2^32: 33 * 1041204193 == 8 * 2^32 + 1. */
  const INVERSE_OF_33: nat := 1041204193

  lemma MixInjective(h: word, h': word, b: byte)
    ensures Mix(h, b) == Mix(h', b) <==> h == h'
  {
    if Mix(h, b) == Mix(h', b) {
      var d := (33 * h + b) / WORD - (33 * h' + b) / WORD;
      assert 33 * (h - h') == WORD * d;
      assert 33 * INVERSE_OF_33 == 8 * WORD + 1;
      assert (h - h') + 8 * WORD * (h - h') == WORD * (INVERSE_OF_33 * d);
      assert h - h' == WORD * (INVERSE_OF_33 * d - 8 * (h - h'));
    }
  }

  /** Whatever is hashed afterwards, two different hash states never meet again. */
  lemma {:induction false} FromInjective(h: word, h': word, s: seq<byte>)
    ensures From(h, s) == From(h', s) <==> h == h'
  {
    if s != [] {
      FromInjective(h, h', s[..|s| - 1]);
      MixInjective(From(h, s[..|s| - 1]), From(h', s[..|s| - 1]), s[|s| - 1]);
    }
  }

  lemma FromSnoc(h: word, s: seq<byte>, b: byte)
    ensures From(h, s + [b]) == Mix(From(h, s), b)
  {
    assert (s + [b])[..|s|] == s;
  }

  /** Changing any single byte of a buffer always changes its hash. */
  lemma SingleByteChange(s: seq<byte>, i: nat, b: byte)
    requires i < |s|
    ensures Hash(s[i := b]) == Hash(s) <==> b == s[i]
  {
    HashAround(s, i, s[i]);
    HashAround(s, i, b);
    assert s[i := s[i]] == s;
    var h := From(SEED, s[..i]);
    FromInjective(Mix(h, s[i]), Mix(h, b), s[i + 1..]);
    WrapCongruent(33 * h + s[i], 33 * h + b);
  }

  lemma HashAround(s: seq<byte>, i: nat, b: byte)
    requires i < |s|
    ensures Hash(s[i := b]) == From(Mix(From(SEED, s[..i]), b), s[i + 1..])
  {
    assert s[i := b] == (s[..i] + [b]) + s[i + 1..];
    FromSplit(SEED, s[..i] + [b], s[i + 1..]);
    FromSnoc(SEED, s[..i], b);
  }

  /** The hash after a record's hours and minutes. */
  function TimeHash(h: word, hours: byte, minutes: byte): word { Wrap(33 * (33 * h + hours) + minutes) }

  lemma TwoBytes(h: word, x: byte, y: byte)
    ensures From(h, [x, y]) == TimeHash(h, x, y)
  {
    FromSnoc(h, [], x);
    FromSnoc(h, [x], y);
    assert [] + [x] == [x] && [x] + [y] == [x, y];
    MixTwice(h, x, y);
  }

  lemma MixTwice(h: word, x: byte, y: byte)
    ensures Mix(Mix(h, x), y) == Wrap(33 * (33 * h + x) + y)
  {
    WrapScaled(33 * h + x, y);
  }

  lemma WrapScaled(t: int, y: int)
    ensures Wrap(33 * t + y) == Wrap(33 * Wrap(t) + y)
  {
    WrapShift(33 * Wrap(t) + y, 33 * (t / WORD));
  }

  lemma WrapCongruent(a: int, b: int)
    requires -(WORD as int) < a - b < WORD
    ensures Wrap(a) == Wrap(b) <==> a == b
  {
  }

  function Retimed(r: ApiReminder, hours: byte, minutes: byte): ApiReminder
  {
    r.(hours := hours, minutes := minutes)
  }

  function AfterTime(r: ApiReminder): seq<byte>
  {
    [r.recurrence, Flags(r), r.month, r.day] + MessageField(r.message)
  }

  lemma RecordAroundTime(r: ApiReminder)
    ensures ToWatchReminder(r) == [2, r.reminderId] + [r.hours, r.minutes] + AfterTime(r)
  {
  }

  lemma RecordHash(h: word, r: ApiReminder)
    ensures From(h, ToWatchReminder(r))
              == From(TimeHash(From(h, [2, r.reminderId]), r.hours, r.minutes), AfterTime(r))
  {
    RecordAroundTime(r);
    FromSplit(h, [2, r.reminderId] + [r.hours, r.minutes], AfterTime(r));
    FromSplit(h, [2, r.reminderId], [r.hours, r.minutes]);
    TwoBytes(From(h, [2, r.reminderId]), r.hours, r.minutes);
  }

  lemma SplitAt<T>(s: seq<T>, i: nat)
    requires i <= |s|
    ensures s[..i] + s[i..] == s
  {
  }

  lemma {:induction false} RecordsAround(rs: seq<ApiReminder>, i: nat)
    requires i < |rs|
    ensures Records(rs) == Records(rs[..i]) + ToWatchReminder(rs[i]) + Records(rs[i + 1..])
  {
    SplitAt(rs, i + 1);
    RecordsSplit(rs[..i + 1], rs[i + 1..]);
    assert rs[..i + 1][..i] == rs[..i];
  }

  /** The hash of a sync buffer, taken up to, through and after the i-th record. */
  lemma {:induction false} BufferHash(rs: seq<ApiReminder>, i: nat)
    requires |rs| <= MAX_REMINDERS && i < |rs|
    ensures Hash(Encode(rs)) == From(From(HashBefore(rs, i), ToWatchReminder(rs[i])), Records(rs[i + 1..]))
  {
    RecordsAround(rs, i);
    var pre: seq<byte> := [|rs|] + Records(rs[..i]);
    assert Encode(rs) == (pre + ToWatchReminder(rs[i])) + Records(rs[i + 1..]);
    FromSplit(SEED, pre + ToWatchReminder(rs[i]), Records(rs[i + 1..]));
    FromSplit(SEED, pre, ToWatchReminder(rs[i]));
  }

  /** The hash of a sync buffer up to the i-th record. */
  function HashBefore(rs: seq<ApiReminder>, i: nat): word
    requires |rs| <= MAX_REMINDERS && i < |rs|
  {
    From(SEED, [|rs|] + Records(rs[..i]))
  }

  /** Replacing one record is noticed exactly if the hashes differ right after it. */
  lemma OneRecordChanged(rs: seq<ApiReminder>, i: nat, r: ApiReminder)
    requires |rs| <= MAX_REMINDERS && i < |rs|
    ensures (Hash(Encode(rs[i := r])) == Hash(Encode(rs)))
            == (From(HashBefore(rs, i), ToWatchReminder(r)) == From(HashBefore(rs, i), ToWatchReminder(rs[i])))
  {
    var rs' := rs[i := r];
    BufferHash(rs, i);
    BufferHash(rs', i);
    assert rs'[..i] == rs[..i] && rs'[i + 1..] == rs[i + 1..];
    FromInjective(From(HashBefore(rs, i), ToWatchReminder(r)), From(HashBefore(rs, i), ToWatchReminder(rs[i])), Records(rs[i + 1..]));
  }

  lemma TimeOfDayShift(h: byte, m: byte, h': byte, m': byte)
    requires h < 24 && m < 60 && h' < 24 && m' < 60
    ensures var dh, dm := h' as int - h as int, m' as int - m as int;
            (33 * (h' as int) + m' as int == 33 * (h as int) + m as int)
            == ((dh, dm) == (0, 0) || (dh, dm) == (1, -33) || (dh, dm) == (-1, 33))
  {
  }

  lemma SameTimeSum(g: word, h: byte, m: byte, h': byte, m': byte)
    ensures (TimeHash(g, h, m) == TimeHash(g, h', m'))
            == (33 * (h as int) + m as int == 33 * (h' as int) + m' as int)
  {
    WrapCongruent(33 * (33 * g + h) + m, 33 * (33 * g + h') + m');
  }

  /** Equal hashes after a record's time bytes mean equal 33 * hours + minutes. */
  lemma RetimedRecord(h: word, r: ApiReminder, hours: byte, minutes: byte)
    ensures (From(h, ToWatchReminder(Retimed(r, hours, minutes))) == From(h, ToWatchReminder(r)))
            == (33 * (hours as int) + minutes as int == 33 * (r.hours as int) + r.minutes as int)
  {
    var g := From(h, [2, r.reminderId]);
    RecordHash(h, r);
    RecordHash(h, Retimed(r, hours, minutes));
    SameTimeSum(g, hours, minutes, r.hours, r.minutes);
    assert AfterTime(Retimed(r, hours, minutes)) == AfterTime(r);
    FromInjective(TimeHash(g, hours, minutes), TimeHash(g, r.hours, r.minutes), AfterTime(r));
  }

  /**
    Moving one reminder to another time of day goes unnoticed exactly when the hours and minutes cancel in the
    hash: not at all, one hour later and 33 minutes back, or one hour back and 33 minutes later.
   */
  lemma TimeEditCollision(rs: seq<ApiReminder>, i: nat, hours: byte, minutes: byte)
    requires |rs| <= MAX_REMINDERS && i < |rs|
    requires rs[i].hours < 24 && rs[i].minutes < 60 && hours < 24 && minutes < 60
    ensures var dh, dm := hours as int - rs[i].hours as int, minutes as int - rs[i].minutes as int;
            (Hash(Encode(rs[i := Retimed(rs[i], hours, minutes)])) == Hash(Encode(rs)))
            == ((dh, dm) == (0, 0) || (dh, dm) == (1, -33) || (dh, dm) == (-1, 33))
  {
    OneRecordChanged(rs, i, Retimed(rs[i], hours, minutes));
    RetimedRecord(HashBefore(rs, i), rs[i], hours, minutes);
    TimeOfDayShift(rs[i].hours, rs[i].minutes, hours, minutes);
  }

  // ---------------------------------------------------------------- the sentinel value

  lemma {:induction false} ZerosAfterZero(n: nat)
    ensures From(0, Zeros(n)) == 0
  {
    if n > 0 {
      ZerosAfterZero(n - 1);
      assert Zeros(n)[..n - 1] == Zeros(n - 1);
    }
  }

  /** A daily 08:30 reminder with the text "psubqrq". */
  function Unlucky(): ApiReminder
  {
    ApiReminder(1, 8, 30, 0x80, 1, 0, 0, [112, 115, 117, 98, 113, 114, 113], true)
  }

  lemma UnluckyRecord()
    ensures ToWatchReminder(Unlucky()) == [2, 1, 8, 30, 0x80, 3, 0, 0] + (Unlucky().message + Zeros(57))
  {
    assert Unlucky().message[..7] == Unlucky().message;
  }

  lemma SingleRecord(r: ApiReminder)
    ensures Encode([r]) == [1] + ToWatchReminder(r)
  {
    assert [r][..0] == [];
    assert Records([r]) == ToWatchReminder(r);
  }

  lemma UnluckyBuffer(head: seq<byte>)
    requires head == [1, 2, 1, 8] + [30, 0x80, 3, 0] + [0, 112, 115, 117] + [98, 113, 114, 113]
    ensures Encode([Unlucky()]) == head + Zeros(57)
  {
    SingleRecord(Unlucky());
    UnluckyRecord();
  }

  /** Its sync buffer hashes to 0, the value that stands for "never synced": the change check cannot see it. */
  lemma HashCanBeTheSentinel()
    ensures Hash(Encode([Unlucky()])) == 0
  {
    var head := HeadHash();
    UnluckyBuffer(head);
    FromSplit(SEED, head, Zeros(57));
    ZerosAfterZero(57);
  }

  lemma FourBytes(h: word, a: byte, b: byte, c: byte, d: byte)
    ensures From(h, [a, b, c, d]) == Mix(Mix(Mix(Mix(h, a), b), c), d)
  {
    assert [a, b] + [c, d] == [a, b, c, d];
    FromSplit(h, [a, b], [c, d]);
    TwoMixes(h, a, b);
    TwoMixes(From(h, [a, b]), c, d);
  }

  lemma TwoMixes(h: word, a: byte, b: byte)
    ensures From(h, [a, b]) == Mix(Mix(h, a), b)
  {
    FromSnoc(h, [], a);
    FromSnoc(h, [a], b);
    assert [] + [a] == [a] && [a] + [b] == [a, b];
  }

  lemma FourParts(h: word, p: seq<byte>, q: seq<byte>, r: seq<byte>, s: seq<byte>)
    ensures From(h, p + q + r + s) == From(From(From(From(h, p), q), r), s)
  {
    FromSplit(h, p + q + r, s);
    FromSplit(h, p + q, r);
    FromSplit(h, p, q);
  }

  lemma HeadHash() returns (s: seq<byte>)
    ensures From(SEED, s) == 0
    ensures s == [1, 2, 1, 8] + [30, 0x80, 3, 0] + [0, 112, 115, 117] + [98, 113, 114, 113]
  {
    var p: seq<byte>, q: seq<byte>, r: seq<byte>, t: seq<byte> :=
      [1, 2, 1, 8], [30, 0x80, 3, 0], [0, 112, 115, 117], [98, 113, 114, 113];
    s := p + q + r + t;
    FourParts(SEED, p, q, r, t);
    FourBytes(5381, 1, 2, 1, 8);
    FourBytes(2086511761, 30, 128, 3, 0);
    FourBytes(81926482, 0, 112, 115, 117);
    FourBytes(1880382986, 98, 113, 114, 113);
    MixChain();
  }

  lemma MixChain()
    ensures Mix(5381, 1) == 177574
    ensures Mix(177574, 2) == 5859944
    ensures Mix(5859944, 1) == 193378153
    ensures Mix(193378153, 8) == 2086511761
    ensures Mix(2086511761, 30) == 135411407
    ensures Mix(135411407, 128) == 173609263
    ensures Mix(173609263, 3) == 1434138386
    ensures Mix(1434138386, 0) == 81926482
    ensures Mix(81926482, 0) == 2703573906
    ensures Mix(2703573906, 112) == 3318593090
    ensures Mix(3318593090, 115) == 2139389685
    ensures Mix(2139389685, 117) == 1880382986
    ensures Mix(1880382986, 98) == 1923096492
    ensures Mix(1923096492, 113) == 3332642205
    ensures Mix(3332642205, 114) == 2603010479
    ensures Mix(2603010479, 113) == 0
  {
  }
}
