/** The scheduling service (scheduling.service.js) as an object over the
    booking and availability tables: availability slots, booking creation
    behind the conflict detector, status changes under the permission table,
    and the list, lookup and weekly views. Audit events go to an audit log it
    is given. */
module SchedulingService {

  import opened Common
  import Store
  import Audit
  import opened Scheduling

  /** The answer of `getWeeklySchedule`: bookings grouped under their day. */
  datatype WeeklySchedule = WeeklySchedule(weekStart: Day, weekEnd: Day, schedule: map<Day, seq<Booking>>)

  ghost predicate DistinctIds(bookings: seq<Booking>)
  {
    forall i, j :: 0 <= i < j < |bookings| ==> bookings[i].id != bookings[j].id
  }

  /** Rows with distinct ids are distinct rows. */
  lemma {:induction false} DistinctIdsNoDup(bookings: seq<Booking>)
    requires DistinctIds(bookings)
    ensures Store.NoDup(bookings)
  {
    if bookings != [] {
      assert DistinctIds(bookings[1..]) by {
        forall i, j | 0 <= i < j < |bookings[1..]| ensures bookings[1..][i].id != bookings[1..][j].id {
          assert bookings[1..][i] == bookings[i + 1] && bookings[1..][j] == bookings[j + 1];
        }
      }
      DistinctIdsNoDup(bookings[1..]);
      assert bookings == [bookings[0]] + bookings[1..];
      assert bookings[0] !in bookings[1..] by {
        forall k | 0 <= k < |bookings[1..]| ensures bookings[1..][k] != bookings[0] {
          assert bookings[1..][k] == bookings[k + 1];
        }
      }
    }
  }

  /** The `grouped` loop of `getWeeklySchedule`: each booking of an ordered
      result is pushed onto the list under its own day. */
  method GroupByDate(ordered: seq<Booking>) returns (grouped: map<Day, seq<Booking>>)
    ensures forall d :: d in grouped <==> exists b :: b in ordered && b.date == d
    ensures forall d :: d in grouped ==> grouped[d] == Store.Filter(ordered, OnDay(d))
  {
    grouped := map[];
    var i := 0;
    while i < |ordered|
      invariant 0 <= i <= |ordered|
      invariant forall d :: d in grouped <==> exists b :: b in ordered[..i] && b.date == d
      invariant forall d :: d in grouped ==> grouped[d] == Store.Filter(ordered[..i], OnDay(d))
    {
      var b := ordered[i];
      assert ordered[..i + 1] == ordered[..i] + [b];
      forall d ensures Store.Filter(ordered[..i + 1], OnDay(d))
                       == Store.Filter(ordered[..i], OnDay(d)) + (if b.date == d then [b] else []) {
        Store.FilterAppend(ordered[..i], b, OnDay(d));
      }
      if b.date !in grouped {
        Store.FilterNone(ordered[..i], OnDay(b.date));
        grouped := grouped[b.date := []];
      }
      grouped := grouped[b.date := grouped[b.date] + [b]];
      i := i + 1;
    }
    assert ordered[..i] == ordered;
  }

  class Service {
    var bookings: seq<Booking>
    var slots: seq<Availability>
    var nextId: nat
    const audit: Audit.AuditLog

    /** Row ids are distinct and below the id counter; the audit log is valid. */
    ghost predicate Valid()
      reads this, audit
    {
      && audit.Valid()
      && DistinctIds(bookings)
      && (forall i :: 0 <= i < |bookings| ==> bookings[i].id < nextId)
      && (forall a, a' :: a in slots && a' in slots && a.id == a'.id ==> a == a')
      && (forall a :: a in slots ==> a.id < nextId)
    }

    constructor (log: Audit.AuditLog)
      requires log.Valid()
      ensures Valid() && audit == log
      ensures bookings == [] && slots == []
    {
      bookings := [];
      slots := [];
      nextId := 0;
      audit := log;
    }

    /** `setAvailability`: 409 for a slot with the same instructor, day and
        times (in any tenant), otherwise one new slot. */
    method SetAvailability(instructorId: Id, tenantId: Id, date: Day, startTime: Minute, endTime: Minute)
      returns (r: Result<Availability>)
      requires Valid()
      modifies this
      ensures Valid() && bookings == old(bookings)
      ensures r.Err? <==> exists a :: a in old(slots) && a.instructorId == instructorId && a.date == date
                                      && a.startTime == startTime && a.endTime == endTime
      ensures r.Err? ==> r.error == SlotExists && slots == old(slots)
      ensures r.Ok? ==> r.value == Availability(old(nextId), tenantId, instructorId, date, startTime, endTime)
      ensures r.Ok? ==> slots == old(slots) + [r.value]
    {
      var existing := Store.FindFirst(slots, SameSlot(instructorId, date, startTime, endTime));
      if existing.Some? {
        assert SameSlot(instructorId, date, startTime, endTime)(slots[existing.value]);
        return Err(SlotExists);
      }
      var slot := Availability(nextId, tenantId, instructorId, date, startTime, endTime);
      slots := slots + [slot];
      nextId := nextId + 1;
      r := Ok(slot);
    }

    /** `getAvailability`: the tenant's slots, narrowed to an instructor and a
        day when given, by day then start time. */
    method GetAvailability(tenantId: Id, instructorId: Option<Id>, date: Option<Day>)
      returns (result: seq<Availability>)
      ensures forall a :: a in result <==>
        && a in slots && a.tenantId == tenantId
        && (instructorId.Some? ==> a.instructorId == instructorId.value)
        && (date.Some? ==> a.date == date.value)
      ensures Store.SortedBy(result, SlotKey)
      ensures Store.OrderedQuery(result, slots, SlotMatches(SlotWhere(tenantId, instructorId, date)), SlotKey)
    {
      var where := SlotWhere(tenantId, None, None);
      if instructorId.Some? {
        where := where.(instructorId := instructorId);
      }
      if date.Some? {
        where := where.(date := date);
      }
      assert where == SlotWhere(tenantId, instructorId, date);
      result := Store.SortBy(Store.Filter(slots, SlotMatches(where)), SlotKey);
    }

    /** `deleteAvailability`: 404 for an unknown id, 403 when the slot is
        another instructor's, otherwise the slot with that id is removed. */
    method DeleteAvailability(id: Id, instructorId: Id) returns (r: Result<Availability>)
      requires Valid()
      modifies this
      ensures Valid() && bookings == old(bookings)
      ensures r.Err? ==> slots == old(slots)
      ensures (r.Err? && r.error == SlotNotFound) <==> forall a :: a in old(slots) ==> a.id != id
      ensures (r.Err? && r.error == NotAuthorized) <==>
                exists a :: a in old(slots) && a.id == id && a.instructorId != instructorId
      ensures r.Err? ==> r.error == SlotNotFound || r.error == NotAuthorized
      ensures r.Ok? ==> r.value in old(slots) && r.value.id == id && r.value.instructorId == instructorId
      ensures r.Ok? ==> forall a :: a in slots <==> a in old(slots) && a != r.value
      ensures r.Ok? ==> slots == Store.Filter(old(slots), SlotWithoutId(id))
    {
      var found := Store.FindFirst(slots, SlotWithId(id));
      if found.None? {
        forall a | a in slots ensures a.id != id {
          var k :| 0 <= k < |slots| && slots[k] == a;
          assert !SlotWithId(id)(slots[k]);
        }
        return Err(SlotNotFound);
      }
      var slot := slots[found.value];
      assert SlotWithId(id)(slot);
      if slot.instructorId != instructorId {
        return Err(NotAuthorized);
      }
      slots := Store.Filter(slots, SlotWithoutId(id));
      r := Ok(slot);
    }

    /** `createBooking`: 409 when the conflict detector finds a blocking
        booking, otherwise one new REQUESTED booking and its audit event. */
    method CreateBooking(studentId: Id, instructorId: Id, tenantId: Id, date: Day,
                         startTime: Minute, endTime: Minute, notes: Option<string>,
                         correlationId: Option<string>, ipAddress: Option<string>,
                         now: int, auditFails: bool)
      returns (r: Result<Booking>)
      requires Valid()
      modifies this, audit
      ensures Valid() && slots == old(slots)
      ensures r.Err? <==> HasConflict(old(bookings), instructorId, date, startTime, endTime, None)
      ensures r.Err? ==> r.error == SlotConflict
      ensures r.Err? ==> bookings == old(bookings) && audit.entries == old(audit.entries)
      ensures r.Ok? ==> r.value == Booking(old(nextId), tenantId, studentId, instructorId, date,
                                           startTime, endTime, Requested, notes, None)
      ensures r.Ok? ==> bookings == old(bookings) + [r.value]
      ensures r.Ok? ==> (audit.entries == old(audit.entries) +
        (if auditFails then [] else [Audit.Normalise(CreationEvent(r.value, correlationId, ipAddress), old(audit.nextId), now)]))
      ensures NoOverlap(old(bookings)) ==> NoOverlap(bookings)
    {
      if HasConflict(bookings, instructorId, date, startTime, endTime, None) {
        return Err(SlotConflict);
      }
      var booking := Booking(nextId, tenantId, studentId, instructorId, date,
                             startTime, endTime, Requested, notes, None);
      if NoOverlap(bookings) {
        CreateKeepsNoOverlap(bookings, booking);
      }
      bookings := bookings + [booking];
      nextId := nextId + 1;
      audit.Log(CreationEvent(booking, correlationId, ipAddress), now, auditFails);
      r := Ok(booking);
    }

    /** `getBookingById`. */
    method GetBookingById(id: Id, tenantId: Id) returns (r: Result<Booking>)
      ensures r.Ok? ==> r.value in bookings && r.value.id == id && r.value.tenantId == tenantId
      ensures r.Err? <==> forall b :: b in bookings ==> !(b.id == id && b.tenantId == tenantId)
      ensures r.Err? ==> r.error == BookingNotFound
    {
      r := FindBooking(bookings, id, tenantId);
    }

    /** `updateBookingStatus`: 404 when the booking is not in the tenant, 403
        from the permission checks, otherwise only that booking's status (and
        `assignedAt` for ASSIGNED) changes and the change is audited. The
        conflict detector is not consulted. */
    method UpdateBookingStatus(bookingId: Id, status: BookingStatus, userId: Id, role: Role,
                               tenantId: Id, correlationId: Option<string>, now: int, auditFails: bool)
      returns (r: Result<Booking>)
      requires Valid()
      modifies this, audit
      ensures Valid() && slots == old(slots)
      ensures r.Err? ==> bookings == old(bookings) && audit.entries == old(audit.entries)
      ensures FindBooking(old(bookings), bookingId, tenantId).Err? ==> r == Err(BookingNotFound)
      ensures FindBooking(old(bookings), bookingId, tenantId).Ok? ==>
        var b := FindBooking(old(bookings), bookingId, tenantId).value;
        match Authorize(b, status, userId, role)
        case Some(e) => r == Err(e)
        case None =>
          && r == Ok(Apply(b, status, now))
          && |bookings| == |old(bookings)|
          && (forall i :: 0 <= i < |bookings| ==>
                bookings[i] == if old(bookings)[i].id == bookingId then Apply(b, status, now) else old(bookings)[i])
          && audit.entries == old(audit.entries) +
               (if auditFails then [] else [Audit.Normalise(StatusEvent(b, status, userId, correlationId), old(audit.nextId), now)])
    {
      var found := FindBooking(bookings, bookingId, tenantId);
      if found.Err? {
        return Err(found.error);
      }
      var b := found.value;
      var denied := Authorize(b, status, userId, role);
      if denied.Some? {
        return Err(denied.value);
      }
      var k :| 0 <= k < |bookings| && bookings[k] == b;
      var updated := Apply(b, status, now);
      ghost var before := bookings;
      bookings := bookings[k := updated];
      forall i | 0 <= i < |bookings|
        ensures bookings[i] == if before[i].id == bookingId then updated else before[i]
      {
        if i != k {
          assert before[i].id != before[k].id;
        }
      }
      audit.Log(StatusEvent(b, status, userId, correlationId), now, auditFails);
      r := Ok(updated);
    }

    /** `getBookings`: one page of the bookings the caller may see, narrowed to
        a status when given, by day then start time, with the page arithmetic. */
    method GetBookings(userId: Id, role: Role, tenantId: Id, status: Option<BookingStatus>,
                       page: Option<int>, limit: Option<int>)
      returns (result: seq<Booking>, pagination: Store.Pagination)
      requires page.Some? ==> page.value >= 1
      requires limit.Some? ==> limit.value >= 1
      ensures pagination.page == (if page.Some? then page.value else DefaultPage)
      ensures pagination.limit == (if limit.Some? then limit.value else DefaultLimit)
      ensures forall b :: b in result ==>
        b in bookings && InScope(b, tenantId, userId, role) && (status.Some? ==> b.status == status.value)
      ensures Store.SortedBy(result, TimeKey)
      ensures |result| <= pagination.limit
      ensures pagination.total == |Store.Filter(bookings, Listed(tenantId, userId, role, status))|
      ensures Store.IsPageCount(pagination.total, pagination.limit, pagination.totalPages)
      ensures exists ordered ::
        && Store.OrderedQuery(ordered, bookings, Listed(tenantId, userId, role, status), TimeKey)
        && result == Store.Window(ordered, Store.Skip(pagination.page, pagination.limit), pagination.limit)
    {
      var p := if page.Some? then page.value else DefaultPage;
      var l := if limit.Some? then limit.value else DefaultLimit;
      var where := BookingWhere(tenantId, None, None, None, None, None);
      if role == Student {
        where := where.(studentId := Some(userId));
      }
      if role == Instructor {
        where := where.(instructorId := Some(userId));
      }
      if status.Some? {
        where := where.(status := status);
      }
      assert forall b :: Matches(where)(b) == Listed(tenantId, userId, role, status)(b);
      Store.FilterCongruent(bookings, Matches(where), Listed(tenantId, userId, role, status));
      var matching := Store.Filter(bookings, Matches(where));
      var ordered := Store.SortBy(matching, TimeKey);
      result := Store.Window(ordered, Store.Skip(p, l), l);
      Store.PageOfQuery(bookings, Matches(where), TimeKey, Store.Skip(p, l), l);
      pagination := Store.Paginate(|matching|, p, l);
      assert Store.OrderedQuery(ordered, bookings, Listed(tenantId, userId, role, status), TimeKey);
    }

    /** `getWeeklySchedule`: the caller's non-cancelled bookings of the seven
        days from `weekStart`, each once, under its own day, by start time. */
    method GetWeeklySchedule(userId: Id, role: Role, tenantId: Id, weekStart: Day)
      returns (r: WeeklySchedule)
      ensures r.weekStart == weekStart && r.weekEnd == weekStart + WeekLength
      ensures forall d, b :: d in r.schedule && b in r.schedule[d] ==>
        b in bookings && b.date == d && Weekly(tenantId, userId, role, weekStart)(b)
      ensures forall b :: b in bookings && Weekly(tenantId, userId, role, weekStart)(b)
                          ==> b.date in r.schedule && b in r.schedule[b.date]
      ensures forall d :: d in r.schedule ==> r.schedule[d] != [] && Store.SortedBy(r.schedule[d], TimeKey)
      ensures DistinctIds(bookings) ==> forall d :: d in r.schedule ==> Store.NoDup(r.schedule[d])
    {
      var weekEnd := weekStart + WeekLength;
      var where := BookingWhere(tenantId, None, None, None, Some((weekStart, weekEnd)), Some(WeekVisible));
      if role == Student {
        where := where.(studentId := Some(userId));
      }
      if role == Instructor {
        where := where.(instructorId := Some(userId));
      }
      assert forall b :: Matches(where)(b) == Weekly(tenantId, userId, role, weekStart)(b);
      Store.FilterCongruent(bookings, Matches(where), Weekly(tenantId, userId, role, weekStart));
      var ordered := Store.SortBy(Store.Filter(bookings, Matches(where)), TimeKey);
      var grouped := GroupByDate(ordered);
      forall d | d in grouped
        ensures grouped[d] != [] && Store.SortedBy(grouped[d], TimeKey)
        ensures DistinctIds(bookings) ==> Store.NoDup(grouped[d])
      {
        DayGroup(bookings, Weekly(tenantId, userId, role, weekStart), d);
        var b :| b in ordered && b.date == d;
        assert b in grouped[d];
      }
      r := WeeklySchedule(weekStart, weekEnd, grouped);
    }
  }

  /** One day's list of an ordered query result holds exactly the matching
      bookings of that day, is non-empty when there is one, is in order and,
      when the table's ids are distinct, holds each booking once. */
  lemma DayGroup(rows: seq<Booking>, p: Booking -> bool, d: Day)
    ensures var g := Store.Filter(Store.SortBy(Store.Filter(rows, p), TimeKey), OnDay(d));
      && (forall b :: b in g <==> b in rows && p(b) && b.date == d)
      && ((exists b :: b in rows && p(b) && b.date == d) ==> g != [])
      && Store.SortedBy(g, TimeKey) && (DistinctIds(rows) ==> Store.NoDup(g))
  {
    var matching := Store.Filter(rows, p);
    var ordered := Store.SortBy(matching, TimeKey);
    Store.FilterSorted(ordered, OnDay(d), TimeKey);
    if DistinctIds(rows) {
      DistinctIdsNoDup(rows);
      Store.FilterNoDup(rows, p);
      assert Store.NoDup(ordered) by {
        forall x ensures multiset(ordered)[x] <= 1 {
          assert multiset(ordered) == multiset(matching);
        }
      }
      Store.FilterNoDup(ordered, OnDay(d));
    }
  }

  /** The bookings the weekly view shows: the caller's scope, the seven days
      from `weekStart`, and any status but CANCELLED. */
  function Weekly(tenantId: Id, userId: Id, role: Role, weekStart: Day): Booking -> bool
  {
    (b: Booking) => InScope(b, tenantId, userId, role)
                    && weekStart <= b.date < weekStart + WeekLength && b.status != Cancelled
  }

  /** The audit request `createBooking` emits. */
  function CreationEvent(b: Booking, correlationId: Option<string>, ipAddress: Option<string>): Audit.LogRequest
  {
    Audit.LogRequest(
      Some(b.studentId), b.tenantId, "BOOKING_CREATED", "Booking", Some(b.id), None,
      Some(map["status" := Audit.Text(StatusName(Requested)), "date" := Audit.Number(b.date),
               "startTime" := Audit.Number(b.startTime), "endTime" := Audit.Number(b.endTime)]),
      Some(OrElse(correlationId, Audit.SystemCorrelation)), ipAddress, None)
  }

  /** The audit request `updateBookingStatus` emits: before and after status. */
  function StatusEvent(b: Booking, status: BookingStatus, userId: Id, correlationId: Option<string>): Audit.LogRequest
    requires status != Requested
  {
    Audit.LogRequest(
      Some(userId), b.tenantId, ActionFor(status), "Booking", Some(b.id),
      Some(map["status" := Audit.Text(StatusName(b.status))]),
      Some(map["status" := Audit.Text(StatusName(status))]),
      Some(OrElse(correlationId, Audit.SystemCorrelation)), None, None)
  }

  function SlotWithoutId(id: Id): Availability -> bool
  {
    (a: Availability) => a.id != id
  }

  /** The bookings `getBookings` counts: the caller's scope and the status. */
  function Listed(tenantId: Id, userId: Id, role: Role, status: Option<BookingStatus>): Booking -> bool
  {
    (b: Booking) => InScope(b, tenantId, userId, role) && (status.Some? ==> b.status == status.value)
  }
}
