/** The web page's schedule: every occurrence within two weeks, sorted; and its agreement with the bridge's. */
module Upcoming {
  import opened Bytes
  import opened WireFormat
  import opened Calendar
  import opened NextReminder
  import opened Wrappers

  const HORIZON: nat := 14 * DAY
  const SAFETY: nat := 60

  datatype Occurrence = Occurrence(date: nat, who: nat)

  /** new Date(y, m - 1, d, h, min) in the year of `now`; months and days past the end carry over. */
  function DatedTime(r: ApiReminder, now: nat): nat
    requires Dated(r)
  {
    Fire(r, DayNumber(YearOf(DayOf(now)), r.month, r.day))
  }

  /** Today at the reminder's time, or tomorrow if that is not after now. */
  function FirstTime(r: ApiReminder, now: nat): nat
  {
    var d := Fire(r, DayOf(now));
    if d <= now then d + DAY else d
  }

  /** The pushes of the day loop from time d on; only days in the mask when `masked`, at most `budget` days. */
  function Pushes(r: ApiReminder, who: nat, d: nat, horizon: nat, masked: bool, budget: nat): seq<Occurrence>
    decreases budget, d
  {
    if d > horizon || budget == 0 then []
    else
      (if !masked || Bit(r.recurrence, Weekday(DayOf(d))) then [Occurrence(d, who)] else [])
      + Pushes(r, who, d + DAY, horizon, masked, budget - 1)
  }

  /** A day loop without a counter is bounded by the horizon. */
  function DaysLeft(d: nat, horizon: nat): nat { if d > horizon then 0 else (horizon - d) / DAY + 1 }

  /** The whole day loop: the daily one runs to the horizon, the masked one also counts to SAFETY. */
  function AllPushes(r: ApiReminder, who: nat, d: nat, horizon: nat, masked: bool): seq<Occurrence>
  {
    Pushes(r, who, d, horizon, masked, Budget(d, horizon, masked))
  }

  function Budget(d: nat, horizon: nat, masked: bool): nat { if masked then SAFETY else DaysLeft(d, horizon) }

  /** What one reminder adds to the list. */
  function OccurrencesOf(r: ApiReminder, who: nat, now: nat): seq<Occurrence>
  {
    var horizon := now + HORIZON;
    if !r.enabled then []
    else if Dated(r) then
      var d := DatedTime(r, now);
      if now < d <= horizon then [Occurrence(d, who)] else []
    else if r.recurrence == 0 then
      if FirstTime(r, now) <= horizon then [Occurrence(FirstTime(r, now), who)] else []
    else
      AllPushes(r, who, FirstTime(r, now), horizon, r.recurrence != DAILY)
  }

  function AllOccurrences(rs: seq<ApiReminder>, now: nat, n: nat): seq<Occurrence>
    requires n <= |rs|
  {
    if n == 0 then [] else AllOccurrences(rs, now, n - 1) + OccurrencesOf(rs[n - 1], n - 1, now)
  }

  // ---------------------------------------------------------------- stable sort by date

  function Insert(o: Occurrence, s: seq<Occurrence>): seq<Occurrence>
  {
    if s == [] || o.date < s[0].date then [o] + s else [s[0]] + Insert(o, s[1..])
  }

  /** Array.prototype.sort by date, which is stable. */
  function Sort(s: seq<Occurrence>): seq<Occurrence>
  {
    if s == [] then [] else Insert(s[|s| - 1], Sort(s[..|s| - 1]))
  }

  ghost predicate Sorted(s: seq<Occurrence>)
  {
    forall i, j :: 0 <= i < j < |s| ==> s[i].date <= s[j].date
  }

  function OfDate(s: seq<Occurrence>, date: nat): seq<Occurrence>
  {
    if s == [] then [] else (if s[0].date == date then [s[0]] else []) + OfDate(s[1..], date)
  }

  lemma {:induction false} OfDateSnoc(s: seq<Occurrence>, o: Occurrence, date: nat)
    ensures OfDate(s + [o], date) == OfDate(s, date) + if o.date == date then [o] else []
  {
    if s == [] {
      assert [] + [o] == [o];
    } else {
      assert (s + [o])[0] == s[0] && (s + [o])[1..] == s[1..] + [o];
      OfDateSnoc(s[1..], o, date);
      var head, tail := if s[0].date == date then [s[0]] else [], if o.date == date then [o] else [];
      assert OfDate(s + [o], date) == head + (OfDate(s[1..], date) + tail);
      assert head + (OfDate(s[1..], date) + tail) == (head + OfDate(s[1..], date)) + tail;
    }
  }

  lemma {:induction false} InsertPermutes(o: Occurrence, s: seq<Occurrence>)
    ensures multiset(Insert(o, s)) == multiset(s) + multiset{o}
    ensures forall x :: x in Insert(o, s) <==> x == o || x in s
  {
    if s != [] && s[0].date <= o.date {
      InsertPermutes(o, s[1..]);
      assert s == [s[0]] + s[1..];
    }
  }

  lemma {:induction false} InsertSorts(o: Occurrence, s: seq<Occurrence>)
    requires Sorted(s)
    ensures Sorted(Insert(o, s))
  {
    if s != [] && s[0].date <= o.date {
      InsertSorts(o, s[1..]);
      InsertPermutes(o, s[1..]);
      var rest := Insert(o, s[1..]);
      forall j | 0 <= j < |rest|
        ensures s[0].date <= rest[j].date
      {
        assert rest[j] in rest;
      }
    }
  }

  lemma {:induction false} InsertIsStable(o: Occurrence, s: seq<Occurrence>, date: nat)
    requires Sorted(s)
    ensures OfDate(Insert(o, s), date) == OfDate(s, date) + if o.date == date then [o] else []
  {
    if s == [] || o.date < s[0].date {
      assert ([o] + s)[1..] == s;
      if o.date == date { NoneOfDate(s, date); }
    } else {
      InsertIsStable(o, s[1..], date);
      assert ([s[0]] + Insert(o, s[1..]))[1..] == Insert(o, s[1..]);
    }
  }

  lemma {:induction false} NoneOfDate(s: seq<Occurrence>, date: nat)
    requires forall i :: 0 <= i < |s| ==> date < s[i].date
    ensures OfDate(s, date) == []
  {
    if s != [] { NoneOfDate(s[1..], date); }
  }

  /** The sort is a sort: ordered by date, a permutation, and stable. */
  lemma {:induction false} SortIsStable(s: seq<Occurrence>, date: nat)
    ensures Sorted(Sort(s)) && multiset(Sort(s)) == multiset(s) && OfDate(Sort(s), date) == OfDate(s, date)
  {
    if s != [] {
      var init, last := s[..|s| - 1], s[|s| - 1];
      SortIsStable(init, date);
      InsertPermutes(last, Sort(init));
      InsertSorts(last, Sort(init));
      InsertIsStable(last, Sort(init), date);
      OfDateSnoc(init, last, date);
      assert s == init + [last];
    }
  }

  // ---------------------------------------------------------------- buildUpcoming

  lemma PushesStep(pushed: seq<Occurrence>, r: ApiReminder, who: nat, d: nat, horizon: nat, masked: bool, budget: nat)
    requires d <= horizon && budget > 0
    ensures var here := if !masked || Bit(r.recurrence, Weekday(DayOf(d))) then [Occurrence(d, who)] else [];
            pushed + Pushes(r, who, d, horizon, masked, budget)
              == (pushed + here) + Pushes(r, who, d + DAY, horizon, masked, budget - 1)
  {
  }

  method PushDays(r: ApiReminder, who: nat, first: nat, horizon: nat, masked: bool) returns (pushed: seq<Occurrence>)
    ensures pushed == AllPushes(r, who, first, horizon, masked)
  {
    pushed := [];
    var d: nat, safety: nat := first, 0;
    ghost var budget: nat := Budget(first, horizon, masked);
    while d <= horizon && (!masked || safety < SAFETY)
      invariant if masked then safety + budget == SAFETY else budget == DaysLeft(d, horizon)
      invariant AllPushes(r, who, first, horizon, masked) == pushed + Pushes(r, who, d, horizon, masked, budget)
      decreases budget
    {
      PushesStep(pushed, r, who, d, horizon, masked, budget);
      if !masked || Bit(r.recurrence, Weekday(DayOf(d))) {
        pushed := pushed + [Occurrence(d, who)];
      } else {
        assert pushed + [] == pushed;
      }
      d, safety, budget := d + DAY, safety + 1, budget - 1;
    }
    assert pushed + [] == pushed;
  }

  /** One turn of the loop over reminders. */
  method PushReminder(r: ApiReminder, who: nat, now: nat) returns (pushed: seq<Occurrence>)
    ensures pushed == OccurrencesOf(r, who, now)
    ensures InRange(r) ==> forall t: nat :: Times(pushed, t, who) == One(Shows(r, now, t))
  {
    if InRange(r) {
      forall t: nat
        ensures Times(OccurrencesOf(r, who, now), t, who) == One(Shows(r, now, t))
      {
        ShownExactly(r, who, now, t);
      }
    }
    pushed := [];
    var horizon := now + HORIZON;
    if !r.enabled { return; }
    if r.month > 0 && r.day > 0 {
      var d := DatedTime(r, now);
      if d > now && d <= horizon {
        pushed := [Occurrence(d, who)];
      }
      return;
    }
    var d := Fire(r, DayOf(now));
    if d <= now { d := d + DAY; }
    if r.recurrence == DAILY {
      pushed := PushDays(r, who, d, horizon, false);
    } else if r.recurrence == 0 {
      if d <= horizon {
        pushed := [Occurrence(d, who)];
      }
    } else {
      pushed := PushDays(r, who, d, horizon, true);
    }
  }

  method BuildUpcoming(rs: seq<ApiReminder>, now: nat) returns (occurrences: seq<Occurrence>)
    ensures occurrences == Sort(AllOccurrences(rs, now, |rs|))
    ensures (forall r :: r in rs ==> InRange(r)) ==> RightList(rs, now, occurrences)
  {
    occurrences := [];
    for i := 0 to |rs|
      invariant occurrences == AllOccurrences(rs, now, i)
    {
      var pushed := PushReminder(rs[i], i, now);
      occurrences := occurrences + pushed;
    }
    occurrences := Sort(occurrences);
    if forall r :: r in rs ==> InRange(r) { ListIsRight(rs, now); }
  }

  // ---------------------------------------------------------------- agreement with the bridge

  /** The year has the reminder's date. */
  predicate InYear(r: ApiReminder, year: nat)
    requires Dated(r)
  {
    r.month <= 12 && r.day <= MonthLength(year, r.month)
  }

  /** The same date a year on, carried over likewise. */
  function NextYearTime(r: ApiReminder, now: nat): nat
    requires Dated(r)
  {
    Fire(r, DayNumber(YearOf(DayOf(now)) + 1, r.month, r.day))
  }

  /**
    When page and bridge agree on a reminder. Undated: always. Daily and dated: if this year's date is the next daily
    time. A date this year has: if it is still to come, or next year's is beyond the scanned days. A date this year
    does not have: if the day it carries over to is not within the scanned days.
   */
  predicate Agreeable(r: ApiReminder, now: nat)
  {
    if !Dated(r) then true
    else if r.recurrence == DAILY then DatedTime(r, now) == FirstTime(r, now)
    else if InYear(r, YearOf(DayOf(now))) then now < DatedTime(r, now) || WindowEnd(now) <= NextYearTime(r, now)
    else !(now < DatedTime(r, now) < WindowEnd(now))
  }

  /** What a reminder's part of the list must look like: nondecreasing, headed by the scan's hit if there is one, else late. */
  ghost predicate MatchesScan(os: seq<Occurrence>, who: nat, hit: Option<nat>, now: nat)
  {
    && (forall o :: o in os ==> o.who == who)
    && (hit.Some? ==> os != [] && os[0].date == hit.value && forall o :: o in os ==> hit.value <= o.date)
    && (hit.None? ==> forall o :: o in os ==> WindowEnd(now) <= o.date)
  }

  /** The days with the reminder's date in one year: one or none. */
  lemma DateInYear(r: ApiReminder, day: nat)
    requires Dated(r)
    ensures (DateOf(day).month == r.month && DateOf(day).dom == r.day)
            == (InYear(r, YearOf(day)) && DayNumber(YearOf(day), r.month, r.day) == day)
  {
    if InYear(r, YearOf(day)) { DateRoundTrip(day, Date(YearOf(day), r.month, r.day)); }
  }

  lemma DayInYear(r: ApiReminder, year: nat)
    requires Dated(r) && year >= EPOCH && InYear(r, year)
    ensures YearOf(DayNumber(year, r.month, r.day)) == year
  {
    var d := Date(year, r.month, r.day);
    ValidDayNumber(d);
    WithinYear(d);
    var day := DayNumber(year, r.month, r.day);
    YearUnique(day, YearOf(day), year);
  }

  /** The scanned days end this year or in the first week of the next. */
  lemma ScannedYears(now: nat, x: nat)
    requires DayOf(now) <= x < DayOf(now) + SCAN_DAYS
    ensures var y := YearOf(DayOf(now));
            YearOf(x) == y || (YearOf(x) == y + 1 && YearStart(y + 1) <= x < YearStart(y + 1) + 7)
  {
    var y := YearOf(DayOf(now));
    if x < YearStart(y + 1) { YearUnique(x, YearOf(x), y); } else { YearUnique(x, YearOf(x), y + 1); }
  }

  lemma FirstWeekIsJanuary(y: nat, x: nat)
    requires y >= EPOCH && YearOf(x) == y && YearStart(y) <= x < YearStart(y) + 7
    ensures DateOf(x).month == 1 && DateOf(x).dom <= 7
  {
    var n := x - YearStart(y);
    MonthUnique(y, n, 1, DateOf(x).month);
  }

  /** What the scan finds, by days. */
  lemma ScanInDays(r: ApiReminder, now: nat, x: nat)
    requires InRange(r)
    ensures var hit := Scan(r, now, DayOf(now));
            && (hit.Some? ==> now < hit.value < WindowEnd(now) && hit.value == Fire(r, DayOf(hit.value)) && FiresOn(r, DayOf(hit.value)))
            && (DayOf(now) <= x && FiresOn(r, x) && now < Fire(r, x) < WindowEnd(now) ==> hit.Some? && hit.value <= Fire(r, x))
  {
    ScanIsFirst(r, now, DayOf(now));
    OccursIs(r);
    FireIsOnItsDay(r, x);
    assert Occurs(r, Fire(r, x)) <==> FiresOn(r, x);
  }

  /** The year and day of a dated hit. */
  lemma DatedHitDay(r: ApiReminder, now: nat)
    requires InRange(r) && Dated(r) && r.recurrence != DAILY && Scan(r, now, DayOf(now)).Some?
    ensures var x := DayOf(Scan(r, now, DayOf(now)).value);
            && DayOf(now) <= x < DayOf(now) + SCAN_DAYS && InYear(r, YearOf(x)) && DayNumber(YearOf(x), r.month, r.day) == x
            && (YearOf(x) == YearOf(DayOf(now))
                || (YearOf(x) == YearOf(DayOf(now)) + 1 && r.month == 1 && r.day <= 7))
  {
    ScanInDays(r, now, DayOf(now));
    var x := DayOf(Scan(r, now, DayOf(now)).value);
    ScannedYears(now, x);
    DateInYear(r, x);
    if YearOf(x) != YearOf(DayOf(now)) { FirstWeekIsJanuary(YearOf(x), x); }
  }

  /** What the bridge's scan of a dated, not daily reminder finds: its date this year, or in the first week of the next. */
  lemma DatedHit(r: ApiReminder, now: nat)
    requires InRange(r) && Dated(r) && r.recurrence != DAILY
    ensures var hit := Scan(r, now, DayOf(now));
            && (hit.Some? ==> InYear(r, YearOf(DayOf(now))) && hit.value < WindowEnd(now)
                              && (hit.value == DatedTime(r, now) || hit.value == NextYearTime(r, now))
                              && (hit.value == DatedTime(r, now) <==> now < DatedTime(r, now)))
  {
    ScanInDays(r, now, DayOf(now));
    if Scan(r, now, DayOf(now)).Some? {
      DatedHitDay(r, now);
      var x, y := DayOf(Scan(r, now, DayOf(now)).value), YearOf(DayOf(now));
      if YearOf(x) == y {
        assert DatedTime(r, now) == Fire(r, x);
      } else {
        assert NextYearTime(r, now) == Fire(r, x);
        DateThisYearIsPast(r, now, x);
      }
    }
  }

  /** A date of this year that recurs in the first week of the next is over. */
  lemma DateThisYearIsPast(r: ApiReminder, now: nat, x: nat)
    requires InRange(r) && Dated(r) && r.month == 1 && r.day <= 7 && InYear(r, YearOf(DayOf(now)))
    requires DayOf(now) <= x < DayOf(now) + SCAN_DAYS && YearOf(x) == YearOf(DayOf(now)) + 1
    ensures DatedTime(r, now) <= now
  {
    var y := YearOf(DayOf(now));
    ScannedYears(now, x);
    var day := DayNumber(y, r.month, r.day);
    assert day == YearStart(y) + r.day - 1;
    FireIsOnItsDay(r, day);
  }

  /** A date of this year that is still to come in the scanned days is found. */
  lemma DatedFound(r: ApiReminder, now: nat)
    requires InRange(r) && Dated(r) && r.recurrence != DAILY && InYear(r, YearOf(DayOf(now)))
    ensures now < DatedTime(r, now) < WindowEnd(now) ==> Scan(r, now, DayOf(now)).Some?
    ensures NextYearTime(r, now) < WindowEnd(now) ==> Scan(r, now, DayOf(now)).Some?
  {
    var y := YearOf(DayOf(now));
    var day, next := DayNumber(y, r.month, r.day), DayNumber(y + 1, r.month, r.day);
    ScanInDays(r, now, day);
    ScanInDays(r, now, next);
    FireIsOnItsDay(r, day);
    FireIsOnItsDay(r, next);
    DayInYear(r, y);
    DateInYear(r, day);
    if NextYearTime(r, now) < WindowEnd(now) {
      NextYearNear(r, now);
      DayInYear(r, y + 1);
      DateInYear(r, next);
    }
  }

  /** A date whose next year's time is near is in January, which every year has alike. */
  lemma NextYearNear(r: ApiReminder, now: nat)
    requires InRange(r) && Dated(r) && InYear(r, YearOf(DayOf(now))) && NextYearTime(r, now) < WindowEnd(now)
    ensures InYear(r, YearOf(DayOf(now)) + 1) && now < NextYearTime(r, now)
  {
    var y := YearOf(DayOf(now));
    var next := DayNumber(y + 1, r.month, r.day);
    FireIsOnItsDay(r, next);
    assert next == YearStart(y + 1) + MonthStart(y + 1, r.month) + r.day - 1;
    assert DayOf(now) < YearStart(y + 1);
    assert next < YearStart(y + 1) + 7;
    MonthStartGrows(y + 1, 1, r.month);
  }

  /** Bridge and page agree on an enabled dated reminder exactly when it is agreeable. */
  lemma DatedAgreement(r: ApiReminder, who: nat, now: nat)
    requires r.enabled && InRange(r) && Dated(r) && r.recurrence != DAILY
    ensures MatchesScan(OccurrencesOf(r, who, now), who, Scan(r, now, DayOf(now)), now) <==> Agreeable(r, now)
    ensures Scan(r, now, DayOf(now)).Some? ==>
              (OccurrencesOf(r, who, now) == [Occurrence(Scan(r, now, DayOf(now)).value, who)] <==> now < DatedTime(r, now))
  {
    DatedHit(r, now);
    if InYear(r, YearOf(DayOf(now))) {
      DatedFound(r, now);
    }
    assert WindowEnd(now) <= now + HORIZON;
  }

  /** A date this year does not have is never found by the bridge; the page shows the day it carries over to. */
  lemma MissingDate(r: ApiReminder, who: nat, now: nat)
    requires r.enabled && InRange(r) && Dated(r) && r.recurrence != DAILY && !InYear(r, YearOf(DayOf(now)))
    ensures Scan(r, now, DayOf(now)).None?
    ensures OccurrencesOf(r, who, now) == [Occurrence(DatedTime(r, now), who)] <==> now < DatedTime(r, now) <= now + HORIZON
  {
    DatedHit(r, now);
  }

  lemma FirstTimeIs(r: ApiReminder, now: nat) returns (first: nat)
    requires InRange(r)
    ensures first <= 1 && FirstTime(r, now) == Fire(r, DayOf(now) + first) && now < FirstTime(r, now)
    ensures first == 1 ==> Fire(r, DayOf(now)) <= now
  {
    first := if Fire(r, DayOf(now)) <= now then 1 else 0;
    FireIsOnItsDay(r, DayOf(now) + 1);
  }

  /** The day loop from a day on pushes what the scan from there finds, first. */
  lemma {:induction false} PushesMatch(r: ApiReminder, who: nat, now: nat, day: nat, masked: bool, budget: nat)
    requires InRange(r) && !(Dated(r) && r.recurrence != DAILY)
    requires masked == (r.recurrence != DAILY) && (masked ==> r.recurrence != 0)
    requires DayOf(now) <= day <= DayOf(now) + SCAN_DAYS && now < Fire(r, day) && budget >= DayOf(now) + SCAN_DAYS - day
    ensures MatchesScan(Pushes(r, who, Fire(r, day), now + HORIZON, masked, budget), who, Scan(r, now, day), now)
    decreases DayOf(now) + SCAN_DAYS - day
  {
    var d := Fire(r, day);
    FireIsOnItsDay(r, day);
    LatePushes(r, who, d, now + HORIZON, masked, budget);
    if day < DayOf(now) + SCAN_DAYS {
      assert d <= now + HORIZON;
      assert Fire(r, day + 1) == d + DAY;
      assert Candidate(r, now, day) == (!masked || Bit(r.recurrence, Weekday(day)));
      if !Candidate(r, now, day) {
        PushesMatch(r, who, now, day + 1, masked, budget - 1);
        assert [] + Pushes(r, who, d + DAY, now + HORIZON, masked, budget - 1)
            == Pushes(r, who, d + DAY, now + HORIZON, masked, budget - 1);
      }
    }
  }

  lemma {:induction false} LatePushes(r: ApiReminder, who: nat, d: nat, horizon: nat, masked: bool, budget: nat)
    ensures forall o :: o in Pushes(r, who, d, horizon, masked, budget) ==> o.who == who && d <= o.date
    decreases budget
  {
    if d <= horizon && budget > 0 { LatePushes(r, who, d + DAY, horizon, masked, budget - 1); }
  }

  lemma ScanSkipsPast(r: ApiReminder, now: nat)
    requires InRange(r) && Fire(r, DayOf(now)) <= now
    ensures Scan(r, now, DayOf(now)) == Scan(r, now, DayOf(now) + 1)
  {
  }

  lemma OnceMatches(r: ApiReminder, who: nat, now: nat)
    requires r.enabled && !Dated(r) && InRange(r) && r.recurrence == 0
    ensures MatchesScan(OccurrencesOf(r, who, now), who, Scan(r, now, DayOf(now)), now)
  {
    var first := FirstTimeIs(r, now);
    if first == 1 { ScanSkipsPast(r, now); }
    FireIsOnItsDay(r, DayOf(now) + first);
    assert Candidate(r, now, DayOf(now) + first);
    assert FirstTime(r, now) <= now + HORIZON;
  }

  lemma AllPushesMatch(r: ApiReminder, who: nat, now: nat, d: nat, first: nat, masked: bool)
    requires InRange(r) && !Dated(r) && r.recurrence != 0 && masked == (r.recurrence != DAILY)
    requires first <= 1 && d == Fire(r, DayOf(now) + first) && now < d && Budget(d, now + HORIZON, masked) >= SCAN_DAYS
    ensures MatchesScan(AllPushes(r, who, d, now + HORIZON, masked), who, Scan(r, now, DayOf(now) + first), now)
  {
    PushesMatch(r, who, now, DayOf(now) + first, masked, Budget(d, now + HORIZON, masked));
  }

  lemma RepeatingMatches(r: ApiReminder, who: nat, now: nat)
    requires r.enabled && !Dated(r) && InRange(r) && r.recurrence != 0
    ensures MatchesScan(OccurrencesOf(r, who, now), who, Scan(r, now, DayOf(now)), now)
  {
    var first := FirstTimeIs(r, now);
    var d, masked := FirstTime(r, now), r.recurrence != DAILY;
    if first == 1 { ScanSkipsPast(r, now); }
    AllPushesMatch(r, who, now, d, first, masked);
  }

  /** A reminder that is both daily and dated: the bridge takes it as daily, the page as dated. */
  lemma DailyDatedAgreement(r: ApiReminder, who: nat, now: nat)
    requires InRange(r) && r.enabled && Dated(r) && r.recurrence == DAILY
    ensures Scan(r, now, DayOf(now)) == Some(FirstTime(r, now))
    ensures OccurrencesOf(r, who, now) == [Occurrence(FirstTime(r, now), who)] <==> DatedTime(r, now) == FirstTime(r, now)
  {
    var first := FirstTimeIs(r, now);
    FireIsOnItsDay(r, DayOf(now) + first);
    if first == 1 { ScanSkipsPast(r, now); }
    assert FirstTime(r, now) < (DayOf(now) + 2) * DAY <= now + HORIZON;
  }

  /** Bridge and page agree on one enabled reminder exactly when it is agreeable. */
  lemma PartAgreement(r: ApiReminder, who: nat, now: nat)
    requires r.enabled && InRange(r)
    ensures MatchesScan(OccurrencesOf(r, who, now), who, Scan(r, now, DayOf(now)), now) <==> Agreeable(r, now)
    ensures Scan(r, now, DayOf(now)).Some? ==> Scan(r, now, DayOf(now)).value < WindowEnd(now)
  {
    ScanIsFirst(r, now, DayOf(now));
    if Dated(r) && r.recurrence == DAILY { DailyDatedAgreement(r, who, now); }
    else if Dated(r) { DatedAgreement(r, who, now); }
    else if r.recurrence == 0 { OnceMatches(r, who, now); }
    else { RepeatingMatches(r, who, now); }
  }

  // ---------------------------------------------------------------- the head of the sorted list

  /** The first of the earliest occurrences. */
  function FirstMin(s: seq<Occurrence>): Occurrence
    requires s != []
  {
    if |s| == 1 then s[0]
    else
      var m, last := FirstMin(s[..|s| - 1]), s[|s| - 1];
      if last.date < m.date then last else m
  }

  lemma {:induction false} SortHead(s: seq<Occurrence>)
    requires s != []
    ensures Sort(s) != [] && Sort(s)[0] == FirstMin(s)
  {
    if |s| == 1 {
      assert s[..0] == [];
    } else {
      SortHead(s[..|s| - 1]);
    }
  }

  /** Appending one reminder's part keeps the old head unless the new part starts strictly earlier. */
  lemma {:induction false} FirstMinConcat(a: seq<Occurrence>, b: seq<Occurrence>)
    requires b != [] && forall o :: o in b ==> b[0].date <= o.date
    ensures FirstMin(a + b) == if a != [] && FirstMin(a).date <= b[0].date then FirstMin(a) else b[0]
    decreases |b|
  {
    var c := b[..|b| - 1];
    if |b| == 1 {
      assert (a + b)[..|a|] == a;
    } else {
      FirstMinConcat(a, c);
      assert (a + b)[..|a + b| - 1] == a + c;
      assert b[|b| - 1] in b;
    }
  }

  lemma {:induction false} FirstMinLate(s: seq<Occurrence>, bound: nat)
    requires s != [] && forall o :: o in s ==> bound <= o.date
    ensures bound <= FirstMin(s).date
  {
    assert s[|s| - 1] in s;
    if |s| > 1 { FirstMinLate(s[..|s| - 1], bound); }
  }

  /** A part that is all late never becomes the head of a list whose head is early. */
  lemma {:induction false} LatePartIgnored(a: seq<Occurrence>, b: seq<Occurrence>, bound: nat)
    requires a != [] && FirstMin(a).date < bound && forall o :: o in b ==> bound <= o.date
    ensures FirstMin(a + b) == FirstMin(a)
    decreases |b|
  {
    if b == [] {
      assert a + b == a;
    } else {
      LatePartIgnored(a, b[..|b| - 1], bound);
      assert (a + b)[..|a + b| - 1] == a + b[..|b| - 1];
      assert b[|b| - 1] in b;
    }
  }

  ghost predicate HeadMatches(os: seq<Occurrence>, best: Option<Pick>, now: nat)
  {
    && (best.Some? ==> best.value.fire < WindowEnd(now) && os != [] && FirstMin(os) == Occurrence(best.value.fire, best.value.who))
    && (best.None? ==> forall o :: o in os ==> WindowEnd(now) <= o.date)
  }

  lemma HeadStep(a: seq<Occurrence>, b: seq<Occurrence>, best: Option<Pick>, who: nat, hit: Option<nat>, now: nat)
    requires HeadMatches(a, best, now) && MatchesScan(b, who, hit, now)
    requires hit.Some? ==> hit.value < WindowEnd(now)
    ensures HeadMatches(a + b, Better(best, who, hit), now)
  {
    if hit.Some? {
      FirstMinConcat(a, b);
      assert b[0] in b;
      if best.None? && a != [] { FirstMinLate(a, WindowEnd(now)); }
    } else if best.Some? {
      LatePartIgnored(a, b, WindowEnd(now));
    }
  }

  ghost predicate AllAgreeable(rs: seq<ApiReminder>, now: nat)
  {
    forall r :: r in rs ==> InRange(r) && (r.enabled ==> Agreeable(r, now))
  }

  lemma NextHead(a: seq<Occurrence>, b: seq<Occurrence>, all: seq<Occurrence>, best: Option<Pick>, next: Option<Pick>,
                 r: ApiReminder, who: nat, now: nat)
    requires HeadMatches(a, best, now) && all == a + b && b == OccurrencesOf(r, who, now)
    requires InRange(r) && (r.enabled ==> Agreeable(r, now))
    requires next == if r.enabled then Better(best, who, Scan(r, now, DayOf(now))) else best
    ensures HeadMatches(all, next, now)
  {
    if r.enabled {
      PartAgreement(r, who, now);
      HeadStep(a, b, best, who, Scan(r, now, DayOf(now)), now);
    } else {
      assert a + [] == a;
    }
  }

  lemma {:induction false} HeadsMatch(rs: seq<ApiReminder>, now: nat, n: nat)
    requires n <= |rs| && AllAgreeable(rs, now)
    ensures HeadMatches(AllOccurrences(rs, now, n), Best(rs, now, n), now)
    decreases n
  {
    if n > 0 {
      assert rs[n - 1] in rs;
      HeadsMatch(rs, now, n - 1);
      NextHead(AllOccurrences(rs, now, n - 1), OccurrencesOf(rs[n - 1], n - 1, now), AllOccurrences(rs, now, n),
               Best(rs, now, n - 1), Best(rs, now, n), rs[n - 1], n - 1, now);
    }
  }

  /**
    What agreeing means: when the bridge finds a next reminder, the web page's sorted list starts with the same
    reminder at the same time, ties included; when it finds none, the list holds nothing within the scanned days.
   */
  ghost predicate Agree(rs: seq<ApiReminder>, now: nat)
  {
    var list := Sort(AllOccurrences(rs, now, |rs|));
    match Best(rs, now, |rs|)
    case Some(p) => list != [] && list[0] == Occurrence(p.fire, p.who)
    case None => forall o :: o in list ==> WindowEnd(now) <= o.date
  }

  /** The two schedules agree on every list of agreeable reminders. */
  lemma SchedulesAgree(rs: seq<ApiReminder>, now: nat)
    requires AllAgreeable(rs, now)
    ensures Agree(rs, now)
  {
    HeadsMatch(rs, now, |rs|);
    var all := AllOccurrences(rs, now, |rs|);
    if Best(rs, now, |rs|).Some? {
      SortHead(all);
    } else {
      SortIsStable(all, 0);
      forall o | o in Sort(all)
        ensures WindowEnd(now) <= o.date
      {
        assert o in multiset(Sort(all));
      }
    }
  }

  /** And on a single enabled reminder only if it is agreeable. */
  lemma OneReminderAgrees(r: ApiReminder, now: nat)
    requires r.enabled && InRange(r)
    ensures Agree([r], now) <==> Agreeable(r, now)
  {
    if Agreeable(r, now) {
      SchedulesAgree([r], now);
    } else {
      PartAgreement(r, 0, now);
      AloneMeansMatch(r, now);
    }
  }

  lemma AloneMeansMatch(r: ApiReminder, now: nat)
    requires r.enabled && Dated(r)
    ensures Agree([r], now) ==> MatchesScan(OccurrencesOf(r, 0, now), 0, Scan(r, now, DayOf(now)), now)
  {
    SingleList(r, now);
    SortShort(OccurrencesOf(r, 0, now));
  }

  lemma SortShort(os: seq<Occurrence>)
    requires |os| <= 1
    ensures Sort(os) == os
  {
    if os != [] { assert os[..0] == [] && os == [os[0]]; }
  }

  lemma SingleList(r: ApiReminder, now: nat)
    ensures AllOccurrences([r], now, 1) == OccurrencesOf(r, 0, now)
  {
    assert AllOccurrences([r], now, 0) == [];
    assert [] + OccurrencesOf(r, 0, now) == OccurrencesOf(r, 0, now);
  }

  /** Dates that this year has, in no more than one calendar year of scanned days and without "daily", are agreeable. */
  lemma SameYearSuffices(r: ApiReminder, now: nat)
    requires InRange(r) && YearOf(DayOf(now)) == YearOf(DayOf(now) + SCAN_DAYS - 1)
    requires Dated(r) ==> r.recurrence != DAILY && InYear(r, YearOf(DayOf(now)))
    ensures Agreeable(r, now)
  {
    if Dated(r) {
      var y := YearOf(DayOf(now));
      var next := DayNumber(y + 1, r.month, r.day);
      FireIsOnItsDay(r, next);
      assert DayOf(now) + SCAN_DAYS <= YearStart(y + 1) <= next;
    }
  }

  // ---------------------------------------------------------------- the whole list

  /** The page is to show the reminder at second t. Of a reminder without date that is not repeated: only its next time. */
  ghost predicate Shows(r: ApiReminder, now: nat, t: nat)
  {
    && r.enabled && now < t <= now + 14 * 86400
    && (if r.month > 0 && r.day > 0 then ClockReads(r, t) && t / 86400 == DayNumber(YearOf(now / 86400), r.month, r.day)
        else if r.recurrence == 0 then Occurs(r, t) && forall s: nat :: now < s < t ==> !Occurs(r, s)
        else Occurs(r, t))
  }

  function Times(s: seq<Occurrence>, t: nat, who: nat): nat { multiset(s)[Occurrence(t, who)] }

  function One(b: bool): nat { if b then 1 else 0 }

  /** Day x is one the loop pushes, seen from its day `day`. */
  predicate Pushed(r: ApiReminder, day: nat, horizon: nat, masked: bool, t: nat)
  {
    t == Fire(r, DayOf(t)) && day <= DayOf(t) && t <= horizon && (!masked || Bit(r.recurrence, Weekday(DayOf(t))))
  }

  /** What one turn of the day loop pushes. */
  function Here(r: ApiReminder, who: nat, day: nat, masked: bool): seq<Occurrence>
  {
    if !masked || Bit(r.recurrence, Weekday(day)) then [Occurrence(Fire(r, day), who)] else []
  }

  lemma OneTurn(r: ApiReminder, who: nat, day: nat, horizon: nat, masked: bool, budget: nat)
    requires InRange(r) && Fire(r, day) <= horizon && budget > 0
    ensures Pushes(r, who, Fire(r, day), horizon, masked, budget)
              == Here(r, who, day, masked) + Pushes(r, who, Fire(r, day + 1), horizon, masked, budget - 1)
  {
    FireIsOnItsDay(r, day);
    assert Fire(r, day + 1) == Fire(r, day) + DAY;
  }

  lemma TurnExactly(r: ApiReminder, who: nat, day: nat, horizon: nat, masked: bool, rest: seq<Occurrence>, t: nat)
    requires InRange(r) && Fire(r, day) <= horizon
    requires Times(rest, t, who) == One(Pushed(r, day + 1, horizon, masked, t))
    ensures Times(Here(r, who, day, masked) + rest, t, who) == One(Pushed(r, day, horizon, masked, t))
  {
  }

  /** The day loop pushes every day from its first on, in the mask if there is one, once each. */
  lemma {:induction false} PushesExactly(r: ApiReminder, who: nat, day: nat, horizon: nat, masked: bool, budget: nat, t: nat)
    requires InRange(r) && budget >= DaysLeft(Fire(r, day), horizon)
    ensures Times(Pushes(r, who, Fire(r, day), horizon, masked, budget), t, who) == One(Pushed(r, day, horizon, masked, t))
    decreases budget
  {
    if Fire(r, day) > horizon {
      assert Pushes(r, who, Fire(r, day), horizon, masked, budget) == [];
    } else {
      PushesExactly(r, who, day + 1, horizon, masked, budget - 1, t);
      OneTurn(r, who, day, horizon, masked, budget);
      TurnExactly(r, who, day, horizon, masked, Pushes(r, who, Fire(r, day + 1), horizon, masked, budget - 1), t);
    }
  }

  /** The fire times from the first one on are those after now. */
  lemma FromFirst(r: ApiReminder, now: nat, first: nat, t: nat)
    requires InRange(r) && first <= 1 && now < Fire(r, DayOf(now) + first) && (first == 1 ==> Fire(r, DayOf(now)) <= now)
    requires t == Fire(r, DayOf(t))
    ensures DayOf(now) + first <= DayOf(t) <==> now < t
  {
    if DayOf(now) + first < DayOf(t) { LaterDay(r, r, DayOf(now) + first, DayOf(t)); }
    if DayOf(t) < DayOf(now) { FireIsOnItsDay(r, DayOf(t)); }
  }

  /** The page is to show a repeating reminder on the days the loop pushes. */
  lemma ShowsPushed(r: ApiReminder, now: nat, first: nat, t: nat)
    requires r.enabled && InRange(r) && !Dated(r) && r.recurrence != 0
    requires first <= 1 && now < Fire(r, DayOf(now) + first) && (first == 1 ==> Fire(r, DayOf(now)) <= now)
    ensures Shows(r, now, t) <==> Pushed(r, DayOf(now) + first, now + HORIZON, r.recurrence != DAILY, t)
  {
    OccursIs(r);
    if t == Fire(r, DayOf(t)) { FromFirst(r, now, first, t); }
  }

  lemma RepeatingExactly(r: ApiReminder, who: nat, now: nat, t: nat)
    requires r.enabled && InRange(r) && !Dated(r) && r.recurrence != 0
    ensures Times(OccurrencesOf(r, who, now), t, who) == One(Shows(r, now, t))
  {
    var first := FirstTimeIs(r, now);
    var masked := r.recurrence != DAILY;
    var budget := Budget(FirstTime(r, now), now + HORIZON, masked);
    PushesExactly(r, who, DayOf(now) + first, now + HORIZON, masked, budget, t);
    ShowsPushed(r, now, first, t);
  }

  /** No fire time lies between now and the first one. */
  lemma NoneBefore(r: ApiReminder, now: nat, first: nat, t: nat)
    requires InRange(r) && first <= 1 && now < Fire(r, DayOf(now) + first) && (first == 1 ==> Fire(r, DayOf(now)) <= now)
    requires now < t && t == Fire(r, DayOf(t))
    ensures Fire(r, DayOf(now) + first) <= t
  {
    FromFirst(r, now, first, t);
    if DayOf(now) + first < DayOf(t) { LaterDay(r, r, DayOf(now) + first, DayOf(t)); }
  }

  lemma OnceExactly(r: ApiReminder, who: nat, now: nat, t: nat)
    requires r.enabled && InRange(r) && !Dated(r) && r.recurrence == 0
    ensures Times(OccurrencesOf(r, who, now), t, who) == One(Shows(r, now, t))
  {
    var first := FirstTimeIs(r, now);
    var d := FirstTime(r, now);
    OccursIs(r);
    FireIsOnItsDay(r, DayOf(now) + first);
    assert Occurs(r, d) && d <= now + HORIZON;
    forall s: nat | now < s && Occurs(r, s)
      ensures d <= s
    {
      NoneBefore(r, now, first, s);
    }
  }

  lemma DatedExactly(r: ApiReminder, who: nat, now: nat, t: nat)
    requires r.enabled && InRange(r) && Dated(r)
    ensures Times(OccurrencesOf(r, who, now), t, who) == One(Shows(r, now, t))
  {
    var day := DayNumber(YearOf(DayOf(now)), r.month, r.day);
    FireIsOnItsDay(r, day);
    ClockIsFire(r, t);
  }

  /** What one reminder adds to the list: exactly the times the page is to show it, once each. */
  lemma ShownExactly(r: ApiReminder, who: nat, now: nat, t: nat)
    requires InRange(r)
    ensures Times(OccurrencesOf(r, who, now), t, who) == One(Shows(r, now, t))
  {
    if r.enabled {
      if Dated(r) { DatedExactly(r, who, now, t); }
      else if r.recurrence == 0 { OnceExactly(r, who, now, t); }
      else { RepeatingExactly(r, who, now, t); }
    }
  }

  lemma OwnOnly(r: ApiReminder, who: nat, now: nat, t: nat, other: nat)
    requires other != who
    ensures Times(OccurrencesOf(r, who, now), t, other) == 0
  {
    LatePushes(r, who, FirstTime(r, now), now + HORIZON, r.recurrence != DAILY,
               Budget(FirstTime(r, now), now + HORIZON, r.recurrence != DAILY));
  }

  lemma EitherPart(a: seq<Occurrence>, b: seq<Occurrence>, t: nat, who: nat, p: bool, q: bool)
    requires Times(a, t, who) == One(p) && Times(b, t, who) == One(q) && !(p && q)
    ensures Times(a + b, t, who) == One(p || q)
  {
  }

  lemma PartExactly(r: ApiReminder, own: nat, now: nat, t: nat, who: nat)
    requires InRange(r)
    ensures Times(OccurrencesOf(r, own, now), t, who) == One(who == own && Shows(r, now, t))
  {
    if who == own { ShownExactly(r, who, now, t); } else { OwnOnly(r, own, now, t, who); }
  }

  lemma {:induction false} AllExactly(rs: seq<ApiReminder>, now: nat, n: nat, t: nat, who: nat)
    requires n <= |rs| && forall r :: r in rs ==> InRange(r)
    ensures Times(AllOccurrences(rs, now, n), t, who) == One(who < n && Shows(rs[who], now, t))
    decreases n
  {
    if n > 0 {
      AllExactly(rs, now, n - 1, t, who);
      assert rs[n - 1] in rs;
      PartExactly(rs[n - 1], n - 1, now, t, who);
      EitherPart(AllOccurrences(rs, now, n - 1), OccurrencesOf(rs[n - 1], n - 1, now), t, who,
                 who < n - 1 && Shows(rs[who], now, t), who == n - 1 && Shows(rs[who], now, t));
    }
  }

  /** The list shows every reminder at every time it is to be shown, once each, nothing else, and in order of time. */
  ghost predicate RightList(rs: seq<ApiReminder>, now: nat, list: seq<Occurrence>)
  {
    Sorted(list) && forall t: nat, who: nat :: Times(list, t, who) == One(who < |rs| && Shows(rs[who], now, t))
  }

  lemma ListIsRight(rs: seq<ApiReminder>, now: nat)
    requires forall r :: r in rs ==> InRange(r)
    ensures RightList(rs, now, Sort(AllOccurrences(rs, now, |rs|)))
  {
    var all := AllOccurrences(rs, now, |rs|);
    SortIsStable(all, 0);
    forall t: nat, who: nat
      ensures Times(Sort(all), t, who) == One(who < |rs| && Shows(rs[who], now, t))
    {
      AllExactly(rs, now, |rs|, t, who);
    }
  }

  // ---------------------------------------------------------------- where they disagree

  function At(month: byte, day: byte, recurrence: byte): ApiReminder
  {
    ApiReminder(1, 9, 0, recurrence, 1, month, day, [], true)
  }

  /** 31 April, seen on 28 April 1970 at noon: the page shows 1 May, the bridge nothing. */
  lemma MissingDateDisagrees()
    ensures !Agree([At(4, 31, 0)], 117 * DAY + 43200)
  {
    var r, now := At(4, 31, 0), 117 * DAY + 43200;
    assert DatedTime(r, now) == Fire(r, 120);
    OneReminderAgrees(r, now);
  }

  /** 2 January, seen on 30 December 1970 at noon: the bridge finds it, the page does not. */
  lemma NewYearDisagrees()
    ensures !Agree([At(1, 2, 0)], 363 * DAY + 43200)
  {
    var r, now := At(1, 2, 0), 363 * DAY + 43200;
    assert DatedTime(r, now) == Fire(r, 1) && NextYearTime(r, now) == Fire(r, 366);
    OneReminderAgrees(r, now);
  }

  /** Daily and dated 1 April, seen on 1 January 1970 at noon: the bridge says tomorrow, the page nothing. */
  lemma DailyDatedDisagrees()
    ensures !Agree([At(4, 1, DAILY)], 43200)
  {
    var r, now := At(4, 1, DAILY), 43200;
    assert DatedTime(r, now) == Fire(r, 90);
    OneReminderAgrees(r, now);
  }

}
