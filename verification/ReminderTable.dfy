/** The server's reminder table: rows keyed by user and slot, and the handlers that create, update and delete them. */
module ReminderTable {
  import opened Bytes
  import opened WireFormat

  const SLOTS: nat := 56

  datatype Key = Key(user: int, slot: byte)

  type Rows = map<Key, ApiReminder>

  /** Every row carries the slot it is stored under. */
  ghost predicate Keyed(rows: Rows)
  {
    forall k :: k in rows ==> rows[k].reminderId == k.slot
  }

  /** SELECT ... WHERE user_id = ? ORDER BY reminder_id, from a slot upwards. */
  function ListFrom(rows: Rows, user: int, slot: nat): seq<ApiReminder>
    decreases 256 - slot
  {
    if slot >= 256 then []
    else (if Key(user, slot) in rows then [rows[Key(user, slot)]] else []) + ListFrom(rows, user, slot + 1)
  }

  function List(rows: Rows, user: int): seq<ApiReminder> { ListFrom(rows, user, 0) }

  /** The request names no slot, or one that is taken. */
  predicate Reassign(rows: Rows, user: int, request: ApiReminder)
  {
    request.reminderId == 0 || Key(user, request.reminderId) in rows
  }

  /** All assignable slots are taken. */
  predicate Full(rows: Rows, user: int)
  {
    forall i: byte :: i < SLOTS ==> Key(user, i) in rows
  }

  datatype Status = Created(slot: byte) | Conflict

  datatype Op =
    | Create(user: int, request: ApiReminder)
    | Update(user: int, slot: byte, request: ApiReminder)
    | Delete(user: int, slot: byte)

  /** The first free slot from `id` on, or SLOTS. */
  function LeastFree(rows: Rows, user: int, id: nat): nat
    requires id <= SLOTS
    decreases SLOTS - id
  {
    if id == SLOTS || Key(user, id) !in rows then id else LeastFree(rows, user, id + 1)
  }

  /** The create handler's answer. */
  function Allocate(rows: Rows, user: int, request: ApiReminder): Status
  {
    if !Reassign(rows, user, request) then Created(request.reminderId)
    else
      var id := LeastFree(rows, user, 0);
      if id < SLOTS then Created(id) else Conflict
  }

  /** The table after one handler. */
  function After(rows: Rows, op: Op): Rows
  {
    match op
    case Create(user, request) =>
      (match Allocate(rows, user, request)
       case Created(slot) => rows[Key(user, slot) := request.(reminderId := slot)]
       case Conflict => rows)
    case Update(user, slot, request) =>
      if Key(user, slot) in rows then rows[Key(user, slot) := request.(reminderId := slot)] else rows
    case Delete(user, slot) => rows - {Key(user, slot)}
  }

  function AfterAll(rows: Rows, ops: seq<Op>): Rows
    decreases |ops|
  {
    if ops == [] then rows else AfterAll(After(rows, ops[0]), ops[1..])
  }

  class ReminderStore {
    var rows: Rows

    constructor ()
      ensures rows == map[]
    {
      rows := map[];
    }

    /** INSERT ... ON CONFLICT DO UPDATE. */
    method Upsert(user: int, rem: ApiReminder)
      modifies this
      ensures rows == old(rows)[Key(user, rem.reminderId) := rem]
    {
      rows := rows[Key(user, rem.reminderId) := rem];
    }

    method CreateReminder(user: int, request: ApiReminder) returns (status: Status)
      requires Keyed(rows)
      modifies this
      ensures Keyed(rows)
      ensures status == Allocate(old(rows), user, request)
      ensures rows == After(old(rows), Create(user, request))
    {
      var used := UsedBy(user);
      var rem := request;
      if request.reminderId == 0 || request.reminderId in used {
        var id: nat := 0;
        while id < SLOTS && id in used
          invariant id <= SLOTS
          invariant LeastFree(rows, user, id) == LeastFree(rows, user, 0)
        {
          id := id + 1;
        }
        if id == SLOTS {
          return Conflict;
        }
        rem := request.(reminderId := id);
      }
      Upsert(user, rem);
      return Created(rem.reminderId);
    }

    /** The used map: slots the listing mentions. */
    method UsedBy(user: int) returns (used: set<byte>)
      requires Keyed(rows)
      ensures forall k: byte :: k in used <==> Key(user, k) in rows
    {
      var existing := List(rows, user);
      used := {};
      for i := 0 to |existing|
        invariant forall k :: k in used <==> exists j :: 0 <= j < i && existing[j].reminderId == k
      {
        used := used + {existing[i].reminderId};
      }
      UsedSlots(rows, user);
    }

    /** UPDATE ... WHERE: a missing row is not created. */
    method UpdateReminder(user: int, slot: byte, request: ApiReminder)
      requires Keyed(rows)
      modifies this
      ensures Keyed(rows)
      ensures rows == After(old(rows), Update(user, slot, request))
    {
      if Key(user, slot) in rows {
        rows := rows[Key(user, slot) := request.(reminderId := slot)];
      }
    }

    method DeleteReminder(user: int, slot: byte)
      requires Keyed(rows)
      modifies this
      ensures Keyed(rows)
      ensures rows == After(old(rows), Delete(user, slot))
    {
      rows := rows - {Key(user, slot)};
    }
  }

  // ---------------------------------------------------------------- slot allocation

  lemma {:induction false} LeastFreeIsLeast(rows: Rows, user: int, id: nat)
    requires id <= SLOTS
    ensures var f := LeastFree(rows, user, id);
            && id <= f <= SLOTS
            && (forall i: byte :: id <= i < f ==> Key(user, i) in rows)
            && (f < SLOTS ==> Key(user, f) !in rows)
    decreases SLOTS - id
  {
    if id < SLOTS && Key(user, id) in rows {
      LeastFreeIsLeast(rows, user, id + 1);
    }
  }

  /**
    409 exactly when the request names no free slot and slots 0-55 are all taken; otherwise a slot that was free,
    the requested one if it could be had and else the least: the upsert never meets an existing row.
   */
  lemma AllocationIsFresh(rows: Rows, user: int, request: ApiReminder)
    ensures var status := Allocate(rows, user, request);
            && (status.Conflict? <==> Reassign(rows, user, request) && Full(rows, user))
            && (status.Created? ==>
                  && Key(user, status.slot) !in rows
                  && (forall k :: k in rows ==> k in After(rows, Create(user, request)) && After(rows, Create(user, request))[k] == rows[k])
                  && (!Reassign(rows, user, request) ==> status.slot == request.reminderId)
                  && (Reassign(rows, user, request) ==>
                        status.slot < SLOTS && forall i: byte :: i < status.slot ==> Key(user, i) in rows))
  {
    LeastFreeIsLeast(rows, user, 0);
  }

  /** Rows gained minus rows lost by a sequence of handlers: one per answered create, one per effective delete. */
  function Balance(rows: Rows, ops: seq<Op>): int
    decreases |ops|
  {
    if ops == [] then 0
    else
      (match ops[0]
       case Create(user, request) => if Allocate(rows, user, request).Created? then 1 else 0
       case Update(_, _, _) => 0
       case Delete(user, slot) => if Key(user, slot) in rows then -1 else 0)
      + Balance(After(rows, ops[0]), ops[1..])
  }

  /** Over every sequence of handlers each answered create adds a row and only deletes remove one. */
  lemma {:induction false} RowsAreConserved(rows: Rows, ops: seq<Op>)
    requires Keyed(rows)
    ensures Keyed(AfterAll(rows, ops)) && |AfterAll(rows, ops)| == |rows| + Balance(rows, ops)
    decreases |ops|
  {
    if ops != [] {
      var op := ops[0];
      match op {
        case Create(user, request) => AllocationIsFresh(rows, user, request);
        case Update(user, slot, request) =>
          if Key(user, slot) in rows { assert After(rows, op).Keys == rows.Keys; }
        case Delete(user, slot) => assert After(rows, op).Keys == rows.Keys - {Key(user, slot)};
      }
      assert |After(rows, op)| == |After(rows, op).Keys| && |rows| == |rows.Keys|;
      RowsAreConserved(After(rows, op), ops[1..]);
    }
  }

  // ---------------------------------------------------------------- the listing

  ghost predicate Listing(rows: Rows, user: int, slot: nat, es: seq<ApiReminder>)
  {
    && Increasing(es)
    && (forall e :: e in es ==> slot <= e.reminderId && Key(user, e.reminderId) in rows && rows[Key(user, e.reminderId)] == e)
    && (forall k: byte :: slot <= k && Key(user, k) in rows ==> rows[Key(user, k)] in es)
  }

  lemma ListingCons(rows: Rows, user: int, slot: byte, rest: seq<ApiReminder>)
    requires Keyed(rows) && Key(user, slot) in rows && Listing(rows, user, slot as nat + 1, rest)
    ensures Listing(rows, user, slot, [rows[Key(user, slot)]] + rest)
  {
    var es := [rows[Key(user, slot)]] + rest;
    assert es[0] == rows[Key(user, slot)] && es[1..] == rest;
    assert Increasing(es);
    forall k: byte | slot <= k && Key(user, k) in rows
      ensures rows[Key(user, k)] in es
    {
      if k > slot { assert rows[Key(user, k)] in es[1..]; }
    }
  }

  lemma ListingSkip(rows: Rows, user: int, slot: byte, rest: seq<ApiReminder>)
    requires Key(user, slot) !in rows && Listing(rows, user, slot as nat + 1, rest)
    ensures Listing(rows, user, slot, rest)
  {
  }

  /** The listing from a slot upwards: strictly increasing slots, exactly the user's rows. */
  lemma {:induction false} ListFromIsSorted(rows: Rows, user: int, slot: nat)
    requires Keyed(rows)
    ensures Listing(rows, user, slot, ListFrom(rows, user, slot))
    decreases 256 - slot
  {
    if slot < 256 {
      ListFromIsSorted(rows, user, slot + 1);
      var rest := ListFrom(rows, user, slot + 1);
      if Key(user, slot) in rows {
        ListingCons(rows, user, slot, rest);
      } else {
        ListingSkip(rows, user, slot, rest);
        assert [] + rest == rest;
      }
    }
  }

  lemma UsedSlots(rows: Rows, user: int)
    requires Keyed(rows)
    ensures var es := List(rows, user);
            forall k: byte :: Key(user, k) in rows <==> exists j :: 0 <= j < |es| && es[j].reminderId == k
  {
    ListFromIsSorted(rows, user, 0);
    var es := List(rows, user);
    forall k: byte | Key(user, k) in rows
      ensures exists j :: 0 <= j < |es| && es[j].reminderId == k
    {
      var j :| 0 <= j < |es| && es[j] == rows[Key(user, k)];
    }
  }

  ghost predicate Increasing(es: seq<ApiReminder>)
  {
    forall i, j :: 0 <= i < j < |es| ==> es[i].reminderId < es[j].reminderId
  }

  lemma {:induction false} EnabledKeepsOrder(es: seq<ApiReminder>)
    requires Increasing(es)
    ensures Increasing(Enabled(es))
    ensures forall e :: e in Enabled(es) <==> e in es && e.enabled
    decreases |es|
  {
    if es != [] {
      var init, last := es[..|es| - 1], es[|es| - 1];
      assert es == init + [last];
      EnabledKeepsOrder(init);
      assert forall e :: e in init ==> e.reminderId < last.reminderId;
    }
  }

  /**
    The snapshot a poll leads to: at most 56 rows, every one an enabled row of the user, listed once by slot; and
    an enabled row is left out only when 56 rows with lower slots are in.
   */
  lemma SnapshotIsLowestEnabled(rows: Rows, user: int)
    requires Keyed(rows)
    ensures var es := Snapshot(List(rows, user));
            && Increasing(es) && |es| <= MAX_REMINDERS
            && (forall e :: e in es ==> e.enabled && Key(user, e.reminderId) in rows && rows[Key(user, e.reminderId)] == e)
            && (forall k: byte :: Key(user, k) in rows && rows[Key(user, k)].enabled && rows[Key(user, k)] !in es ==>
                  |es| == MAX_REMINDERS && forall e :: e in es ==> e.reminderId < k)
  {
    var all := List(rows, user);
    ListFromIsSorted(rows, user, 0);
    EnabledKeepsOrder(all);
    var on, es := Enabled(all), Snapshot(all);
    forall k: byte | Key(user, k) in rows && rows[Key(user, k)].enabled && rows[Key(user, k)] !in es
      ensures |es| == MAX_REMINDERS && forall e :: e in es ==> e.reminderId < k
    {
      CutKeepsLowest(on, MAX_REMINDERS, rows[Key(user, k)]);
    }
  }

  lemma CutKeepsLowest(on: seq<ApiReminder>, n: nat, r: ApiReminder)
    requires Increasing(on) && r in on && r !in on[..Min(|on|, n)]
    ensures |on| > n && forall e :: e in on[..n] ==> e.reminderId < r.reminderId
  {
    var i :| 0 <= i < |on| && on[i] == r;
    var cut := on[..Min(|on|, n)];
    assert forall j :: 0 <= j < |cut| ==> cut[j] == on[j] && cut[j] != r;
    assert i >= |cut|;
  }

  // ---------------------------------------------------------------- what is stored

  /** The listing changes by one row: `gone` is replaced by `come`, each at most one entry. */
  ghost predicate Replaces(before: seq<ApiReminder>, after: seq<ApiReminder>, gone: multiset<ApiReminder>, come: multiset<ApiReminder>)
  {
    forall r :: gone[r] <= multiset(before)[r] && multiset(after)[r] == multiset(before)[r] - gone[r] + come[r]
  }

  lemma {:induction false} ListCounts(rows: Rows, user: int, slot: nat, r: ApiReminder)
    requires Keyed(rows)
    ensures multiset(ListFrom(rows, user, slot))[r]
              == if slot <= r.reminderId && Key(user, r.reminderId) in rows && rows[Key(user, r.reminderId)] == r then 1 else 0
    decreases 256 - slot
  {
    if slot < 256 {
      ListCounts(rows, user, slot + 1, r);
      var head := if Key(user, slot) in rows then [rows[Key(user, slot)]] else [];
      assert multiset(head + ListFrom(rows, user, slot + 1)) == multiset(head) + multiset(ListFrom(rows, user, slot + 1));
    }
  }

  function Stored(rows: Rows, user: int, slot: byte): multiset<ApiReminder>
  {
    if Key(user, slot) in rows then multiset{rows[Key(user, slot)]} else multiset{}
  }

  function CountIn(rows: Rows, user: int, r: ApiReminder): nat
  {
    if Key(user, r.reminderId) in rows && rows[Key(user, r.reminderId)] == r then 1 else 0
  }

  /** The rows stored under one user's slot, if it is this user. */
  function Gone(rows: Rows, u: int, slot: byte, user: int): multiset<ApiReminder>
  {
    if u == user then Stored(rows, u, slot) else multiset{}
  }

  function Come(row: ApiReminder, u: int, user: int): multiset<ApiReminder>
  {
    if u == user then multiset{row} else multiset{}
  }

  lemma PutCounts(rows: Rows, u: int, slot: byte, row: ApiReminder, user: int, r: ApiReminder)
    requires Keyed(rows) && row.reminderId == slot
    ensures Gone(rows, u, slot, user)[r] <= CountIn(rows, user, r)
    ensures CountIn(rows[Key(u, slot) := row], user, r) == CountIn(rows, user, r) - Gone(rows, u, slot, user)[r] + Come(row, u, user)[r]
  {
  }

  lemma RemoveCounts(rows: Rows, u: int, slot: byte, user: int, r: ApiReminder)
    requires Keyed(rows)
    ensures Gone(rows, u, slot, user)[r] <= CountIn(rows, user, r)
    ensures CountIn(rows - {Key(u, slot)}, user, r) == CountIn(rows, user, r) - Gone(rows, u, slot, user)[r]
  {
  }

  lemma ListedCount(rows: Rows, user: int, first: nat)
    requires first == 0 && Keyed(rows)
    ensures forall r :: multiset(ListFrom(rows, user, first))[r] == CountIn(rows, user, r)
  {
    forall r
      ensures multiset(ListFrom(rows, user, first))[r] == CountIn(rows, user, r)
    {
      ListCounts(rows, user, first, r);
    }
  }

  lemma ListedAt(rows: Rows, after: Rows, gone: multiset<ApiReminder>, come: multiset<ApiReminder>, user: int, first: nat)
    requires first == 0 && Keyed(rows) && Keyed(after)
    requires forall r :: gone[r] <= CountIn(rows, user, r)
    requires forall r :: CountIn(after, user, r) == CountIn(rows, user, r) - gone[r] + come[r]
    ensures Replaces(ListFrom(rows, user, first), ListFrom(after, user, first), gone, come)
  {
    ListedCount(rows, user, first);
    ListedCount(after, user, first);
  }

  lemma PutIsListed(rows: Rows, u: int, slot: byte, row: ApiReminder, user: int)
    requires Keyed(rows) && row.reminderId == slot
    ensures Replaces(List(rows, user), List(rows[Key(u, slot) := row], user), Gone(rows, u, slot, user), Come(row, u, user))
  {
    forall r
      ensures Gone(rows, u, slot, user)[r] <= CountIn(rows, user, r)
      ensures CountIn(rows[Key(u, slot) := row], user, r) == CountIn(rows, user, r) - Gone(rows, u, slot, user)[r] + Come(row, u, user)[r]
    {
      PutCounts(rows, u, slot, row, user, r);
    }
    ListedAt(rows, rows[Key(u, slot) := row], Gone(rows, u, slot, user), Come(row, u, user), user, 0);
  }

  lemma RemoveIsListed(rows: Rows, u: int, slot: byte, user: int)
    requires Keyed(rows)
    ensures Replaces(List(rows, user), List(rows - {Key(u, slot)}, user), Gone(rows, u, slot, user), multiset{})
  {
    forall r
      ensures Gone(rows, u, slot, user)[r] <= CountIn(rows, user, r)
      ensures CountIn(rows - {Key(u, slot)}, user, r) == CountIn(rows, user, r) - Gone(rows, u, slot, user)[r]
    {
      RemoveCounts(rows, u, slot, user, r);
    }
    ListedAt(rows, rows - {Key(u, slot)}, Gone(rows, u, slot, user), multiset{}, user, 0);
  }

  lemma UntouchedList(rows: Rows, user: int)
    ensures Replaces(List(rows, user), List(rows, user), multiset{}, multiset{})
  {
  }

  /**
    What each handler does to a user's listing: an answered create adds the request under its slot; an update of a listed
    slot puts the request in that row's place; a delete takes the row away; another user's listing is untouched.
   */
  lemma HandlersAreListed(rows: Rows, op: Op, user: int)
    requires Keyed(rows)
    ensures var before, after := List(rows, user), List(After(rows, op), user);
            match op
            case Create(u, request) =>
              var answer := Allocate(rows, u, request);
              Replaces(before, after, multiset{}, if answer.Created? then Come(request.(reminderId := answer.slot), u, user) else multiset{})
            case Update(u, slot, request) =>
              var hit := Key(u, slot) in rows;
              Replaces(before, after, Gone(rows, u, slot, user), if hit then Come(request.(reminderId := slot), u, user) else multiset{})
            case Delete(u, slot) => Replaces(before, after, Gone(rows, u, slot, user), multiset{})
  {
    UntouchedList(rows, user);
    match op
    case Create(u, request) => if Allocate(rows, u, request).Created? { CreateIsListed(rows, u, request, user); }
    case Update(u, slot, request) => PutIsListed(rows, u, slot, request.(reminderId := slot), user);
    case Delete(u, slot) => RemoveIsListed(rows, u, slot, user);
  }

  lemma CreateIsListed(rows: Rows, u: int, request: ApiReminder, user: int)
    requires Keyed(rows) && Allocate(rows, u, request).Created?
    ensures var row := request.(reminderId := Allocate(rows, u, request).slot);
            Replaces(List(rows, user), List(After(rows, Create(u, request)), user), multiset{}, Come(row, u, user))
  {
    AllocationIsFresh(rows, u, request);
    var slot := Allocate(rows, u, request).slot;
    assert Gone(rows, u, slot, user) == multiset{};
    PutIsListed(rows, u, slot, request.(reminderId := slot), user);
  }
}
