/** The bridge's display schedule: when each reminder fires next and which one comes first. */
module NextReminder {
  import opened Bytes
  import opened WireFormat
  import opened Calendar
  import opened Wrappers

  const DAILY: byte := 0x80
  const SCAN_DAYS: nat := 8

  predicate Dated(r: ApiReminder) { r.month > 0 && r.day > 0 }

  /** Bit k of a weekday mask. */
  predicate Bit(mask: byte, k: nat)
    requires k < 7
  {
    if k == 0 then mask % 2 == 1 else Bit(mask / 2, k - 1)
  }

  /** mktime with the reminder's hours and minutes put into a day's broken-down time. */
  function Fire(r: ApiReminder, day: nat): nat { day * DAY + r.hours * 3600 + r.minutes * 60 }

  predicate FiresOn(r: ApiReminder, day: nat)
  {
    if r.recurrence == DAILY then true
    else if Dated(r) then DateOf(day).month == r.month && DateOf(day).dom == r.day
    else if r.recurrence == 0 then true
    else Bit(r.recurrence, Weekday(day))
  }

  /** Does the scan stop at this day? mktime has normalised the date, so it is the day of the fire time that counts. */
  predicate Candidate(r: ApiReminder, now: nat, day: nat)
  {
    var t := Fire(r, day);
    t > now && FiresOn(r, DayOf(t))
  }

  /** The first hit of the scan from a day on, at most SCAN_DAYS days from today. */
  function Scan(r: ApiReminder, now: nat, day: nat): Option<nat>
    requires day <= DayOf(now) + SCAN_DAYS
    decreases DayOf(now) + SCAN_DAYS - day
  {
    if day == DayOf(now) + SCAN_DAYS then None
    else if Candidate(r, now, day) then Some(Fire(r, day))
    else Scan(r, now, day + 1)
  }

  datatype Pick = Pick(who: nat, fire: nat)

  function Better(best: Option<Pick>, who: nat, hit: Option<nat>): Option<Pick>
  {
    if hit.Some? && (best.None? || hit.value < best.value.fire) then Some(Pick(who, hit.value)) else best
  }

  /** The earliest hit among the first n reminders, the first one on ties. */
  function Best(rs: seq<ApiReminder>, now: nat, n: nat): (b: Option<Pick>)
    requires n <= |rs|
    ensures b.Some? ==> b.value.who < n
  {
    if n == 0 then None
    else if rs[n - 1].enabled then Better(Best(rs, now, n - 1), n - 1, Scan(rs[n - 1], now, DayOf(now)))
    else Best(rs, now, n - 1)
  }

  /** The scan of the coming days for one reminder. */
  method FirstFire(r: ApiReminder, now: nat) returns (hit: Option<nat>)
    ensures hit == Scan(r, now, DayOf(now))
  {
    ghost var wanted := Scan(r, now, DayOf(now));
    var offset := 0;
    while offset < SCAN_DAYS
      invariant offset <= SCAN_DAYS
      invariant Scan(r, now, DayOf(now) + offset) == wanted
    {
      var day := DayOf(now) + offset;
      var fire := Fire(r, day);
      if fire > now && FiresOn(r, DayOf(fire)) { return Some(fire); }
      offset := offset + 1;
      assert DayOf(now) + offset == day + 1;
    }
    return None;
  }

  method GetNextReminder(rs: seq<ApiReminder>, now: nat)
      returns (found: bool, hours: byte, minutes: byte, message: seq<text>)
    ensures found == Best(rs, now, |rs|).Some?
    ensures found ==> var r := rs[Best(rs, now, |rs|).value.who];
                      hours == r.hours && minutes == r.minutes && message == r.message
    ensures (forall r :: r in rs ==> InRange(r)) ==> RightAnswer(rs, now, found, hours, minutes, message)
  {
    var bestDelta: int := -1;
    var best: nat := |rs|;
    for i := 0 to |rs|
      invariant bestDelta < 0 <==> Best(rs, now, i).None?
      invariant bestDelta >= 0 ==> Best(rs, now, i) == Some(Pick(best, now + bestDelta))
      invariant best == |rs| <==> bestDelta < 0
    {
      if rs[i].enabled {
        var hit := FirstFire(rs[i], now);
        if hit.Some? {
          LaterThanNow(rs[i], now, DayOf(now));
          var delta := hit.value - now;
          if bestDelta < 0 || delta < bestDelta {
            bestDelta := delta;
            best := i;
          }
        }
      }
    }
    if forall r :: r in rs ==> InRange(r) { PickIsRight(rs, now); }
    if best == |rs| { return false, 0, 0, []; }
    return true, rs[best].hours, rs[best].minutes, rs[best].message;
  }

  /**
    What the display shows: the clock reading and the text of the earliest occurrence of all, or nothing if no reminder is
    due in the scanned days.
   */
  ghost predicate RightAnswer(rs: seq<ApiReminder>, now: nat, found: bool, hours: byte, minutes: byte, message: seq<text>)
  {
    if found then
      exists p :: Optimal(rs, now, |rs|, Some(p)) && hours == p.fire / 3600 % 24 && minutes == p.fire / 60 % 60
                  && message == rs[p.who].message
    else
      Optimal(rs, now, |rs|, None)
  }

  lemma PickIsRight(rs: seq<ApiReminder>, now: nat)
    requires forall r :: r in rs ==> InRange(r)
    ensures match Best(rs, now, |rs|)
            case Some(p) => RightAnswer(rs, now, true, rs[p.who].hours, rs[p.who].minutes, rs[p.who].message)
            case None => RightAnswer(rs, now, false, 0, 0, [])
  {
    NextIsOptimal(rs, now, |rs|);
  }

  lemma {:induction false} LaterThanNow(r: ApiReminder, now: nat, day: nat)
    requires day <= DayOf(now) + SCAN_DAYS && Scan(r, now, day).Some?
    ensures Scan(r, now, day).value > now
    decreases DayOf(now) + SCAN_DAYS - day
  {
    if !Candidate(r, now, day) { LaterThanNow(r, now, day + 1); }
  }

  // ---------------------------------------------------------------- optimality

  ghost predicate InRange(r: ApiReminder) { r.hours < 24 && r.minutes < 60 }

  /** A clock showing second t reads the reminder's hours and minutes, and no seconds. */
  predicate ClockReads(r: ApiReminder, t: nat) { t % 60 == 0 && t / 60 % 60 == r.minutes && t / 3600 % 24 == r.hours }

  function Pow2(n: nat): (p: nat)
    ensures p > 0
  {
    if n == 0 then 1 else 2 * Pow2(n - 1)
  }

  /** The day has the reminder's date in some year. */
  ghost predicate OnDate(r: ApiReminder, day: nat)
  {
    exists d: Date :: d.Valid() && d.month == r.month && d.dom == r.day && DayNumber(d.year, d.month, d.dom) == day
  }

  /**
    The days a reminder is for: all, if it is daily; else those of its date, if it has one; else all, if it is not
    repeated; else the weekdays of its mask, Sunday being bit 0 and 1 January 1970 a Thursday.
   */
  ghost predicate DueOn(r: ApiReminder, day: nat)
  {
    || r.recurrence == 0x80
    || (r.month > 0 && r.day > 0 && OnDate(r, day))
    || (!(r.month > 0 && r.day > 0) && (r.recurrence == 0 || r.recurrence / Pow2((day + 4) % 7) % 2 == 1))
  }

  /** The reminder is due at second t: by the clock, on one of its days. */
  ghost predicate Occurs(r: ApiReminder, t: nat) { ClockReads(r, t) && DueOn(r, t / 86400) }

  /** Minutes, hours and days nest. */
  lemma ClockNests(t: nat)
    ensures t / 3600 == t / 60 / 60 && t / 86400 == t / 3600 / 24
  {
    Quotient(t, 3600, t / 60 / 60, 60 * (t / 60 % 60) + t % 60);
    Quotient(t, 86400, t / 3600 / 24, 3600 * (t / 3600 % 24) + t % 3600);
  }

  lemma ClockIsFire(r: ApiReminder, t: nat)
    requires InRange(r)
    ensures ClockReads(r, t) <==> t == Fire(r, DayOf(t))
  {
    ClockNests(t);
    if ClockReads(r, t) {
      assert t == 60 * (t / 60) + t % 60;
      assert t / 60 == 60 * (t / 3600) + t / 60 % 60;
      assert t / 3600 == 24 * (t / 86400) + t / 3600 % 24;
    }
  }

  lemma {:induction false} BitIsQuotient(mask: byte, k: nat)
    requires k < 7
    ensures Bit(mask, k) <==> mask / Pow2(k) % 2 == 1
    decreases k
  {
    if k > 0 {
      BitIsQuotient(mask / 2, k - 1);
      HalfThenRest(mask, Pow2(k - 1));
    }
  }

  lemma HalfThenRest(n: nat, p: nat)
    requires p > 0
    ensures n / (2 * p) == n / 2 / p
  {
    var q, s := n / 2 / p, n / 2 % p;
    assert n == (2 * p) * q + (2 * s + n % 2);
    Quotient(n, 2 * p, q, 2 * s + n % 2);
  }

  lemma OnDateIs(r: ApiReminder, day: nat)
    ensures OnDate(r, day) <==> DateOf(day).month == r.month && DateOf(day).dom == r.day
  {
    forall d: Date | d.Valid()
      ensures DateOf(day) == d <==> DayNumber(d.year, d.month, d.dom) == day
    {
      DateRoundTrip(day, d);
    }
  }

  /** The scan's test of a day says what the reminder means. */
  lemma DueOnIsFiresOn(r: ApiReminder, day: nat)
    ensures DueOn(r, day) <==> FiresOn(r, day)
  {
    OnDateIs(r, day);
    BitIsQuotient(r.recurrence, Weekday(day));
  }

  /** Occurrences are the scan's fire times on the scan's days. */
  lemma OccursIs(r: ApiReminder)
    requires InRange(r)
    ensures forall t: nat :: Occurs(r, t) <==> t == Fire(r, DayOf(t)) && FiresOn(r, DayOf(t))
  {
    forall t: nat
      ensures Occurs(r, t) <==> t == Fire(r, DayOf(t)) && FiresOn(r, DayOf(t))
    {
      ClockIsFire(r, t);
      DueOnIsFiresOn(r, DayOf(t));
    }
  }

  /** The end of the scanned window. */
  function WindowEnd(now: nat): nat { (DayOf(now) + SCAN_DAYS) * DAY }

  lemma FireIsOnItsDay(r: ApiReminder, day: nat)
    requires InRange(r)
    ensures DayOf(Fire(r, day)) == day
    ensures day * DAY <= Fire(r, day) < (day + 1) * DAY
  {
  }

  /** Days are ordered as their fire times are. */
  lemma LaterDay(r: ApiReminder, q: ApiReminder, d: nat, e: nat)
    requires InRange(r) && InRange(q) && d < e
    ensures Fire(r, d) < Fire(q, e)
  {
    assert (d + 1) * DAY <= e * DAY;
  }

  /** `hit` is the first occurrence after now from day `from` on; none means none before the window's end. */
  ghost predicate IsNext(r: ApiReminder, now: nat, from: nat, hit: Option<nat>)
  {
    && (hit.Some? ==> Occurs(r, hit.value) && now < hit.value < WindowEnd(now))
    && (forall t :: t > now && Occurs(r, t) && DayOf(t) >= from ==> if hit.Some? then hit.value <= t else t >= WindowEnd(now))
  }

  lemma HitIsNext(r: ApiReminder, now: nat, day: nat)
    requires InRange(r) && day < DayOf(now) + SCAN_DAYS && Candidate(r, now, day)
    ensures IsNext(r, now, day, Some(Fire(r, day)))
  {
    FireIsOnItsDay(r, day);
    OccursIs(r);
    forall t | t > now && Occurs(r, t) && DayOf(t) >= day
      ensures Fire(r, day) <= t
    {
      if DayOf(t) > day { LaterDay(r, r, day, DayOf(t)); }
    }
    assert (day + 1) * DAY <= WindowEnd(now);
  }

  lemma MissMeansLater(r: ApiReminder, now: nat, day: nat, hit: Option<nat>)
    requires InRange(r) && !Candidate(r, now, day) && IsNext(r, now, day + 1, hit)
    ensures IsNext(r, now, day, hit)
  {
    FireIsOnItsDay(r, day);
    OccursIs(r);
    forall t | t > now && Occurs(r, t) && DayOf(t) >= day
      ensures if hit.Some? then hit.value <= t else t >= WindowEnd(now)
    {
      assert DayOf(t) != day;
    }
  }

  lemma {:induction false} ScanIsFirst(r: ApiReminder, now: nat, day: nat)
    requires InRange(r) && day <= DayOf(now) + SCAN_DAYS
    ensures IsNext(r, now, day, Scan(r, now, day))
    decreases DayOf(now) + SCAN_DAYS - day
  {
    if day == DayOf(now) + SCAN_DAYS {
    } else if Candidate(r, now, day) {
      HitIsNext(r, now, day);
    } else {
      ScanIsFirst(r, now, day + 1);
      MissMeansLater(r, now, day, Scan(r, now, day + 1));
    }
  }

  /** A mask without the bits below bit n is a multiple of 2 to the n. */
  lemma NoBits(mask: byte, n: nat) returns (q: nat)
    requires n <= 7 && forall k :: 0 <= k < n ==> !Bit(mask, k)
    ensures mask == Pow2(n) * q
    decreases n
  {
    if n == 0 {
      q := mask;
    } else {
      assert !Bit(mask, 0);
      forall k | 0 <= k < n - 1
        ensures !Bit(mask / 2, k)
      {
        assert !Bit(mask, k + 1);
      }
      q := NoBits(mask / 2, n - 1);
      assert mask == 2 * (Pow2(n - 1) * q) == (2 * Pow2(n - 1)) * q;
    }
  }

  /** A mask that is neither "once" nor "daily" names some weekday. */
  lemma MaskNamesADay(mask: byte) returns (k: nat)
    requires mask != 0 && mask != DAILY
    ensures k < 7 && Bit(mask, k)
  {
    assert Pow2(3) == 8 && Pow2(6) == 64 && Pow2(7) == 128;
    if i :| 0 <= i < 7 && Bit(mask, i) {
      k := i;
    } else {
      var q := NoBits(mask, 7);
      assert false;
    }
  }

  /** An undated reminder fires on some day of the coming week. */
  lemma FiresWithinAWeek(r: ApiReminder, today: nat) returns (offset: nat)
    requires !Dated(r) || r.recurrence == DAILY
    ensures 1 <= offset <= 7 && FiresOn(r, today + offset)
  {
    offset := 1;
    if r.recurrence != DAILY && r.recurrence != 0 {
      var k := MaskNamesADay(r.recurrence);
      offset := 1 + (k + 14 - Weekday(today) - 1) % 7;
      assert Weekday(today + offset) == k;
    }
  }

  lemma {:induction false} ScanFinds(r: ApiReminder, now: nat, day: nat, hit: nat)
    requires InRange(r) && day <= hit < DayOf(now) + SCAN_DAYS && Candidate(r, now, hit)
    ensures Scan(r, now, day).Some?
    decreases hit - day
  {
    if !Candidate(r, now, day) {
      ScanFinds(r, now, day + 1, hit);
    }
  }

  /** Every undated or daily reminder fires within the scanned days. */
  lemma UndatedAlwaysFires(r: ApiReminder, now: nat)
    requires InRange(r) && (!Dated(r) || r.recurrence == DAILY)
    ensures Scan(r, now, DayOf(now)).Some?
  {
    var offset := FiresWithinAWeek(r, DayOf(now));
    FireIsOnItsDay(r, DayOf(now) + offset);
    assert now < (DayOf(now) + 1) * DAY <= Fire(r, DayOf(now) + offset);
    ScanFinds(r, now, DayOf(now), DayOf(now) + offset);
  }

  /** The pick among the first n reminders is right: earliest after now over all future days, first listed on ties. */
  ghost predicate Optimal(rs: seq<ApiReminder>, now: nat, n: nat, best: Option<Pick>)
    requires n <= |rs|
  {
    match best
    case Some(p) =>
      && p.who < n && rs[p.who].enabled && Occurs(rs[p.who], p.fire) && now < p.fire < WindowEnd(now)
      && forall i, t :: 0 <= i < n && rs[i].enabled && t > now && Occurs(rs[i], t) ==> p.fire <= t && (i < p.who ==> p.fire < t)
    case None =>
      forall i :: 0 <= i < n && rs[i].enabled ==>
        && Dated(rs[i]) && rs[i].recurrence != DAILY
        && forall t :: t > now && Occurs(rs[i], t) ==> t >= WindowEnd(now)
  }

  lemma OptimalStep(rs: seq<ApiReminder>, now: nat, n: nat, best: Option<Pick>, hit: Option<nat>)
    requires n < |rs| && rs[n].enabled && Optimal(rs, now, n, best) && IsNext(rs[n], now, DayOf(now), hit)
    requires hit.None? ==> Dated(rs[n]) && rs[n].recurrence != DAILY
    ensures Optimal(rs, now, n + 1, Better(best, n, hit))
  {
    forall t | t > now
      ensures DayOf(t) >= DayOf(now)
    {
    }
  }

  lemma OptimalSkip(rs: seq<ApiReminder>, now: nat, n: nat, best: Option<Pick>)
    requires n < |rs| && !rs[n].enabled && Optimal(rs, now, n, best)
    ensures Optimal(rs, now, n + 1, best)
  {
  }

  /** What the scan of one reminder finds, with nothing left unfound but late dated ones. */
  lemma ScanIsRight(r: ApiReminder, now: nat)
    requires InRange(r)
    ensures IsNext(r, now, DayOf(now), Scan(r, now, DayOf(now)))
    ensures Scan(r, now, DayOf(now)).None? ==> Dated(r) && r.recurrence != DAILY
  {
    ScanIsFirst(r, now, DayOf(now));
    if !Dated(r) || r.recurrence == DAILY { UndatedAlwaysFires(r, now); }
  }

  /**
    Global optimality: a pick is the earliest occurrence after now of any enabled reminder on any future day, and the
    first listed one among those due at that second; there is none only if every enabled reminder is dated, not daily,
    and not due within the window.
   */
  lemma {:induction false} NextIsOptimal(rs: seq<ApiReminder>, now: nat, n: nat)
    requires n <= |rs| && forall r :: r in rs ==> InRange(r)
    ensures Optimal(rs, now, n, Best(rs, now, n))
    decreases n
  {
    if n > 0 {
      NextIsOptimal(rs, now, n - 1);
      var r := rs[n - 1];
      assert r in rs;
      ScanIsRight(r, now);
      if r.enabled {
        OptimalStep(rs, now, n - 1, Best(rs, now, n - 1), Scan(r, now, DayOf(now)));
      } else {
        OptimalSkip(rs, now, n - 1, Best(rs, now, n - 1));
      }
    }
  }
}
