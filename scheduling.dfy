/** The rules of booking scheduling (scheduling.service.js), as functions over
    the booking table: the conflict detector, the role-to-status permission
    table with its ownership checks, the effect of a status change, and the
    role scoping of the read views. The stateful service is in module
    SchedulingService. */
module Scheduling {

  import opened Common
  import Store

  datatype BookingStatus = Requested | Approved | Assigned | Completed | Cancelled

  function StatusName(s: BookingStatus): string
  {
    match s
    case Requested => "REQUESTED"
    case Approved => "APPROVED"
    case Assigned => "ASSIGNED"
    case Completed => "COMPLETED"
    case Cancelled => "CANCELLED"
  }

  /** The statuses that hold an instructor's time: only these can conflict. */
  predicate Blocking(s: BookingStatus)
  {
    s == Requested || s == Approved || s == Assigned
  }

  /** A calendar day number (the stored date, whose key is the day itself). */
  type Day = int

  /** Minutes since midnight; a fixed-width "HH:MM" string orders the same way. */
  type Minute = int

  datatype Booking = Booking(
    id: Id, tenantId: Id, studentId: Id, instructorId: Id,
    date: Day, startTime: Minute, endTime: Minute,
    status: BookingStatus, notes: Option<string>, assignedAt: Option<int>)

  datatype Availability = Availability(
    id: Id, tenantId: Id, instructorId: Id, date: Day, startTime: Minute, endTime: Minute)

  /** The overlap test of the conflict query: `startTime < end` and `endTime > start`. */
  predicate Overlaps(start1: Minute, end1: Minute, start2: Minute, end2: Minute)
  {
    start1 < end2 && end1 > start2
  }

  /** Does the stored booking `b` block the candidate slot? The tenant is not
      part of the test. */
  predicate Blocks(b: Booking, instructorId: Id, date: Day, startTime: Minute, endTime: Minute,
                   exclude: Option<Id>)
  {
    && b.instructorId == instructorId
    && b.date == date
    && Blocking(b.status)
    && Overlaps(b.startTime, b.endTime, startTime, endTime)
    && (exclude.Some? ==> b.id != exclude.value)
  }

  function Blocker(instructorId: Id, date: Day, startTime: Minute, endTime: Minute,
                   exclude: Option<Id>): Booking -> bool
  {
    (b: Booking) => Blocks(b, instructorId, date, startTime, endTime, exclude)
  }

  /** `hasConflict`: a `findFirst` for a blocking booking. */
  function HasConflict(bookings: seq<Booking>, instructorId: Id, date: Day,
                       startTime: Minute, endTime: Minute, exclude: Option<Id>): (r: bool)
    ensures r <==> exists i :: 0 <= i < |bookings|
                     && bookings[i].instructorId == instructorId
                     && bookings[i].date == date
                     && Blocking(bookings[i].status)
                     && bookings[i].startTime < endTime && bookings[i].endTime > startTime
                     && (exclude.Some? ==> bookings[i].id != exclude.value)
  {
    var found := Store.FindFirst(bookings, Blocker(instructorId, date, startTime, endTime, exclude));
    assert found.Some? ==> Blocks(bookings[found.value], instructorId, date, startTime, endTime, exclude);
    found.Some?
  }

  /** Back-to-back slots never conflict: a booking that ends exactly when the
      candidate starts, or starts exactly when it ends, is not in the way. */
  lemma BackToBackNeverConflicts(b: Booking, date: Day, startTime: Minute, endTime: Minute)
    requires b.endTime == startTime || b.startTime == endTime
    ensures !HasConflict([b], b.instructorId, date, startTime, endTime, None)
  {
  }

  /** Completed and cancelled bookings never cause a conflict: adding one to the
      table does not change any conflict answer. */
  lemma InactiveNeverConflicts(bookings: seq<Booking>, b: Booking, instructorId: Id, date: Day,
                               startTime: Minute, endTime: Minute, exclude: Option<Id>)
    requires !Blocking(b.status)
    ensures HasConflict(bookings + [b], instructorId, date, startTime, endTime, exclude)
        == HasConflict(bookings, instructorId, date, startTime, endTime, exclude)
  {
    var all := bookings + [b];
    if HasConflict(all, instructorId, date, startTime, endTime, exclude) {
      var i :| 0 <= i < |all| && Blocks(all[i], instructorId, date, startTime, endTime, exclude);
      assert i < |bookings| && all[i] == bookings[i];
    }
    if HasConflict(bookings, instructorId, date, startTime, endTime, exclude) {
      var i :| 0 <= i < |bookings| && Blocks(bookings[i], instructorId, date, startTime, endTime, exclude);
      assert all[i] == bookings[i];
    }
  }

  /** Excluding the only overlapping booking removes the conflict. */
  lemma ExcludeSelf(bookings: seq<Booking>, k: nat, instructorId: Id, date: Day,
                    startTime: Minute, endTime: Minute)
    requires k < |bookings|
    requires forall i :: 0 <= i < |bookings| && i != k ==>
               !Blocks(bookings[i], instructorId, date, startTime, endTime, None)
    requires forall i :: 0 <= i < |bookings| && i != k ==> bookings[i].id != bookings[k].id
    ensures !HasConflict(bookings, instructorId, date, startTime, endTime, Some(bookings[k].id))
  {
  }

  /** Two bookings that both hold the same instructor's overlapping time. */
  predicate Clash(a: Booking, b: Booking)
  {
    && a.instructorId == b.instructorId
    && a.date == b.date
    && Blocking(a.status) && Blocking(b.status)
    && Overlaps(a.startTime, a.endTime, b.startTime, b.endTime)
  }

  /** The scheduling invariant: no two active bookings of one instructor on one
      day overlap (across tenants, since the detector ignores them). */
  ghost predicate NoOverlap(bookings: seq<Booking>)
  {
    forall i, j :: 0 <= i < j < |bookings| ==> !Clash(bookings[i], bookings[j])
  }

  /** A booking admitted by the conflict detector keeps the invariant. */
  lemma CreateKeepsNoOverlap(bookings: seq<Booking>, b: Booking)
    requires NoOverlap(bookings)
    requires !HasConflict(bookings, b.instructorId, b.date, b.startTime, b.endTime, None)
    ensures NoOverlap(bookings + [b])
  {
    var all := bookings + [b];
    forall i, j | 0 <= i < j < |all| ensures !Clash(all[i], all[j]) {
      if j == |bookings| {
        assert all[i] == bookings[i];
        assert !Blocks(bookings[i], b.instructorId, b.date, b.startTime, b.endTime, None);
      } else {
        assert all[i] == bookings[i] && all[j] == bookings[j];
      }
    }
  }

  /** The status each role may set, whatever the booking's current status. */
  function AllowedTargets(role: Role): set<BookingStatus>
  {
    match role
    case Admin => {Approved, Assigned, Cancelled}
    case Instructor => {Assigned, Completed, Cancelled}
    case Student => {Cancelled}
  }

  /** Students act on their own bookings, instructors on bookings they teach. */
  predicate Owns(b: Booking, userId: Id, role: Role)
  {
    match role
    case Student => b.studentId == userId
    case Instructor => b.instructorId == userId
    case Admin => true
  }

  const NotAuthorized := HttpError(403, "Not authorized")

  function RoleCannotSet(role: Role, status: BookingStatus): HttpError
  {
    HttpError(403, "Role " + RoleName(role) + " cannot set status to " + StatusName(status))
  }

  /** The permission checks of `updateBookingStatus`, in their order: the
      role table first, then ownership. */
  function Authorize(b: Booking, status: BookingStatus, userId: Id, role: Role): (r: Option<HttpError>)
    ensures r.None? <==> status in AllowedTargets(role) && Owns(b, userId, role)
    ensures r.Some? ==> r.value.status == 403
    ensures status !in AllowedTargets(role) ==> r == Some(RoleCannotSet(role, status))
  {
    if status !in AllowedTargets(role) then Some(RoleCannotSet(role, status))
    else if role == Student && b.studentId != userId then Some(NotAuthorized)
    else if role == Instructor && b.instructorId != userId then Some(NotAuthorized)
    else None
  }

  /** Permission depends on the role, the target status and ownership only,
      never on the status the booking is in. */
  lemma PermissionIgnoresCurrentStatus(b: Booking, current: BookingStatus, status: BookingStatus,
                                       userId: Id, role: Role)
    ensures Authorize(b.(status := current), status, userId, role) == Authorize(b, status, userId, role)
  {
  }

  /** A student may only cancel, and only a booking of their own. */
  lemma StudentOnlyCancelsOwn(b: Booking, status: BookingStatus, userId: Id)
    ensures Authorize(b, status, userId, Student).None? <==> status == Cancelled && b.studentId == userId
  {
  }

  /** Only an admin approves and only an instructor completes (their own
      booking); nobody can set a booking back to REQUESTED. */
  lemma WhoMaySetWhat(b: Booking, userId: Id, role: Role)
    ensures Authorize(b, Approved, userId, role).None? <==> role == Admin
    ensures Authorize(b, Completed, userId, role).None? <==> role == Instructor && b.instructorId == userId
    ensures Authorize(b, Requested, userId, role).Some?
  {
  }

  /** The booking after a permitted status change at time `now`. */
  function Apply(b: Booking, status: BookingStatus, now: int): (r: Booking)
    ensures r.status == status
    ensures r.assignedAt == (if status == Assigned then Some(now) else b.assignedAt)
    ensures r.(status := b.status, assignedAt := b.assignedAt) == b
  {
    b.(status := status, assignedAt := if status == Assigned then Some(now) else b.assignedAt)
  }

  /** A status change keeps the invariant when the booking already held its
      time or when it gives it up. */
  lemma UpdateKeepsNoOverlap(bookings: seq<Booking>, k: nat, status: BookingStatus, now: int)
    requires NoOverlap(bookings)
    requires k < |bookings|
    requires Blocking(bookings[k].status) || !Blocking(status)
    ensures NoOverlap(bookings[k := Apply(bookings[k], status, now)])
  {
    var after := bookings[k := Apply(bookings[k], status, now)];
    forall i, j | 0 <= i < j < |after| ensures !Clash(after[i], after[j]) {
      assert !Clash(bookings[i], bookings[j]);
    }
  }

  /** No conflict re-check happens on a status change: an admin may approve a
      cancelled booking whose time another active booking has since taken,
      and the invariant is then broken. */
  lemma ReviveBreaksNoOverlap()
    ensures var cancelled := Booking(0, 0, 10, 20, 1, 540, 600, Cancelled, None, None);
            var taken := Booking(1, 0, 11, 20, 1, 540, 600, Requested, None, None);
            && NoOverlap([cancelled, taken])
            && Authorize(cancelled, Approved, 30, Admin).None?
            && !NoOverlap([Apply(cancelled, Approved, 0), taken])
  {
    var cancelled := Booking(0, 0, 10, 20, 1, 540, 600, Cancelled, None, None);
    var taken := Booking(1, 0, 11, 20, 1, 540, 600, Requested, None, None);
    assert Clash([Apply(cancelled, Approved, 0), taken][0], [Apply(cancelled, Approved, 0), taken][1]);
  }

  /** The audit action recorded for a status change. */
  function ActionFor(status: BookingStatus): string
    requires status != Requested
  {
    match status
    case Approved => "BOOKING_APPROVED"
    case Assigned => "BOOKING_ASSIGNED"
    case Completed => "BOOKING_COMPLETED"
    case Cancelled => "BOOKING_CANCELLED"
  }

  const BookingNotFound := HttpError(404, "Booking not found")

  function InTenantWithId(id: Id, tenantId: Id): Booking -> bool
  {
    (b: Booking) => b.id == id && b.tenantId == tenantId
  }

  function InTenant(tenantId: Id): Booking -> bool
  {
    (b: Booking) => b.tenantId == tenantId
  }

  /** `getBookingById`: the booking with that id in that tenant, or 404; a
      booking of another tenant is reported exactly as a missing one. */
  function FindBooking(bookings: seq<Booking>, id: Id, tenantId: Id): (r: Result<Booking>)
    ensures r.Ok? ==> r.value in bookings && r.value.id == id && r.value.tenantId == tenantId
    ensures r.Err? <==> forall b :: b in bookings ==> !(b.id == id && b.tenantId == tenantId)
    ensures r.Err? ==> r.error == BookingNotFound
  {
    match Store.FindFirst(bookings, InTenantWithId(id, tenantId))
    case None => Err(BookingNotFound)
    case Some(k) => Ok(bookings[k])
  }

  /** Tenant isolation of `getBookingById`: the answer is the same when every
      other tenant's bookings are removed from the table. */
  lemma {:induction false} FindBookingIsolated(bookings: seq<Booking>, id: Id, tenantId: Id)
    ensures FindBooking(bookings, id, tenantId)
         == FindBooking(Store.Filter(bookings, InTenant(tenantId)), id, tenantId)
  {
    if bookings != [] {
      FindBookingIsolated(bookings[1..], id, tenantId);
      var own := Store.Filter(bookings, InTenant(tenantId));
      if bookings[0].tenantId == tenantId {
        assert own == [bookings[0]] + Store.Filter(bookings[1..], InTenant(tenantId));
        assert own[0] == bookings[0] && own[1..] == Store.Filter(bookings[1..], InTenant(tenantId));
      } else {
        assert own == Store.Filter(bookings[1..], InTenant(tenantId));
      }
    }
  }

  /** The `where` object of the booking reads, built field by field. */
  datatype BookingWhere = BookingWhere(
    tenantId: Id, studentId: Option<Id>, instructorId: Option<Id>,
    status: Option<BookingStatus>, dates: Option<(Day, Day)>, statuses: Option<set<BookingStatus>>)

  function Matches(w: BookingWhere): Booking -> bool
  {
    (b: Booking) =>
      && b.tenantId == w.tenantId
      && (w.studentId.Some? ==> b.studentId == w.studentId.value)
      && (w.instructorId.Some? ==> b.instructorId == w.instructorId.value)
      && (w.status.Some? ==> b.status == w.status.value)
      && (w.dates.Some? ==> w.dates.value.0 <= b.date < w.dates.value.1)
      && (w.statuses.Some? ==> b.status in w.statuses.value)
  }

  /** Role scoping of every booking read: students see the bookings they
      made, instructors the ones they teach, admins all of the tenant's. */
  predicate InScope(b: Booking, tenantId: Id, userId: Id, role: Role)
  {
    && b.tenantId == tenantId
    && (role == Student ==> b.studentId == userId)
    && (role == Instructor ==> b.instructorId == userId)
  }

  /** `orderBy: [{ date: 'asc' }, { startTime: 'asc' }]`. */
  function TimeKey(b: Booking): (int, int)
  {
    (b.date, b.startTime)
  }

  function OnDay(d: Day): Booking -> bool
  {
    (b: Booking) => b.date == d
  }

  /** The statuses the weekly view shows: all but CANCELLED. */
  const WeekVisible: set<BookingStatus> := {Requested, Approved, Assigned, Completed}

  const WeekLength := 7

  const DefaultPage := 1
  const DefaultLimit := 10

  const SlotExists := HttpError(409, "Slot already exists")
  const SlotNotFound := HttpError(404, "Slot not found")
  const SlotConflict := HttpError(409, "Instructor already has a booking in this time slot")

  /** The duplicate test of `setAvailability`: same instructor, day and times,
      in any tenant. */
  function SameSlot(instructorId: Id, date: Day, startTime: Minute, endTime: Minute): Availability -> bool
  {
    (a: Availability) => a.instructorId == instructorId && a.date == date
                         && a.startTime == startTime && a.endTime == endTime
  }

  function SlotWithId(id: Id): Availability -> bool
  {
    (a: Availability) => a.id == id
  }

  /** The `where` object of `getAvailability`. */
  datatype SlotWhere = SlotWhere(tenantId: Id, instructorId: Option<Id>, date: Option<Day>)

  function SlotMatches(w: SlotWhere): Availability -> bool
  {
    (a: Availability) =>
      && a.tenantId == w.tenantId
      && (w.instructorId.Some? ==> a.instructorId == w.instructorId.value)
      && (w.date.Some? ==> a.date == w.date.value)
  }

  function SlotKey(a: Availability): (int, int)
  {
    (a.date, a.startTime)
  }
}
