/** The ledger of all appointments (`src/managers/AppointmentManager.ts`):
    admission with the cross-booking conflict scan, the status wrappers and
    the read-only listings. */
module AppointmentManagers {
  import opened Wrappers
  import opened Seqs
  import opened TimeSlots
  import opened Services
  import opened Employees
  import opened Customers
  import opened Salons
  import opened Appointments

  /** What the conflict scan reports: a live appointment of the same employee
      whose span overlaps `[start, end)`. */
  predicate Hits(a: Appointment, employeeId: string, start: int, end: int)
    reads a
  {
    Blocking(a.status) && a.employeeId == employeeId && Overlap(start, end, a.dateTime, a.EndTime())
  }

  /** Two stored appointments that would double-book their employee. */
  predicate Clash(a: Appointment, b: Appointment)
    reads a, b
  {
    Blocking(a.status) && Blocking(b.status) && a.ConflictsWith(b)
  }

  /** The appointments of `apts` that the scan reports, in their order. */
  function Conflicting(apts: seq<Appointment>, employeeId: string, start: int, end: int): (r: seq<Appointment>)
    reads apts
    ensures forall a :: a in r ==> a in apts && Hits(a, employeeId, start, end)
    ensures forall a :: a in apts && Hits(a, employeeId, start, end) ==> a in r
    ensures IsSubsequence(r, apts)
  {
    if apts == [] then []
    else
      var init := Conflicting(apts[..|apts| - 1], employeeId, start, end);
      var a := apts[|apts| - 1];
      if Hits(a, employeeId, start, end) then
        assert (init + [a])[..|init|] == init;
        init + [a]
      else init
  }

  /** `conflicts` is what the scan over `apts` reports. */
  ghost predicate Reports(conflicts: seq<Appointment>, apts: seq<Appointment>, employeeId: string, start: int, end: int)
    reads apts
  {
    conflicts == Conflicting(apts, employeeId, start, end)
  }

  /** One more step of the scan over a prefix of `apts`: a hit is appended,
      anything else leaves the report as it was. */
  lemma ScanStep(conflicts: seq<Appointment>, apts: seq<Appointment>, i: int, next: int,
                 employeeId: string, start: int, end: int)
    requires 0 <= i < |apts| && next == i + 1
    requires Reports(conflicts, apts[..i], employeeId, start, end)
    ensures Hits(apts[i], employeeId, start, end) ==> Reports(conflicts + [apts[i]], apts[..next], employeeId, start, end)
    ensures !Hits(apts[i], employeeId, start, end) ==> Reports(conflicts, apts[..next], employeeId, start, end)
  {
    assert apts[..next][..i] == apts[..i];
  }

  /** The loop of `checkConflicts` over the stored appointments, in their order. */
  method Scan(all: seq<Appointment>, employeeId: string, dateTime: int, duration: int) returns (conflicts: seq<Appointment>)
    ensures Reports(conflicts, all, employeeId, dateTime, dateTime + duration)
  {
    var endTime := dateTime + duration;
    conflicts := [];
    var i := 0;
    while i < |all|
      invariant 0 <= i <= |all|
      invariant Reports(conflicts, all[..i], employeeId, dateTime, endTime)
    {
      var appointment := all[i];
      var next := i + 1;
      ScanStep(conflicts, all, i, next, employeeId, dateTime, endTime);
      if appointment.status != Cancelled && appointment.status != Rejected {
        if appointment.employeeId == employeeId {
          var aptEnd := appointment.EndTime();
          if (dateTime < aptEnd && endTime > appointment.dateTime) ||
             (appointment.dateTime < endTime && aptEnd > dateTime) {
            conflicts := conflicts + [appointment];
          }
        }
      }
      i := next;
    }
    assert all[..|all|] == all;
  }

  /** The appointments of `apts` with the given status, in their order. */
  function WithStatus(apts: seq<Appointment>, status: Status): (r: seq<Appointment>)
    reads apts
    ensures |r| <= |apts|
    ensures forall a :: a in r ==> a in apts && a.status == status
    ensures forall a :: a in apts && a.status == status ==> a in r
    ensures IsSubsequence(r, apts)
  {
    if apts == [] then []
    else
      var init := WithStatus(apts[..|apts| - 1], status);
      var a := apts[|apts| - 1];
      if a.status == status then
        assert (init + [a])[..|init|] == init;
        init + [a]
      else init
  }

  /** `ids` lists the keys of `m` once each, and every value is stored under its own id. */
  ghost predicate KeyedBy(ids: seq<string>, m: map<string, Appointment>)
  {
    ListsKeys(ids, m) && forall k :: k in m ==> m[k].id == k
  }

  /** No two values of `m` under different keys clash. */
  ghost predicate ClashFree(m: map<string, Appointment>)
    reads m.Values
  {
    forall k1, k2 :: k1 in m && k2 in m && k1 != k2 ==> !Clash(m[k1], m[k2])
  }

  lemma InsertKeepsKeyed(ids: seq<string>, m: map<string, Appointment>, n: Appointment)
    requires KeyedBy(ids, m) && n.id !in m
    ensures KeyedBy(ids + [n.id], m[n.id := n])
  {
    InsertKeepsListsKeys(ids, m, n.id, n);
  }

  /** A live appointment that the scan found free of hits clashes with nothing stored. */
  lemma InsertKeepsClashFree(m: map<string, Appointment>, n: Appointment)
    requires ClashFree(m) && n !in m.Values && Blocking(n.status)
    requires forall a :: a in m.Values ==> !Hits(a, n.employeeId, n.dateTime, n.EndTime())
    ensures ClashFree(m[n.id := n])
  {
    forall a | a in m.Values ensures !Clash(n, a) && !Clash(a, n) {
      assert !Hits(a, n.employeeId, n.dateTime, n.EndTime());
    }
  }

  class AppointmentManager {
    var byId: map<string, Appointment>
    /** The keys of `byId` in insertion order, the iteration order of a JavaScript `Map`. */
    var ids: seq<string>

    /** Every key is listed once, and each appointment is stored under its own id. */
    ghost predicate Keyed()
      reads this
    {
      KeyedBy(ids, byId)
    }

    /** The central invariant: no two stored live appointments of one employee overlap. */
    ghost predicate NoDoubleBooking()
      reads this, byId.Values
    {
      ClashFree(byId)
    }

    ghost predicate Valid()
      reads this, byId.Values
    {
      Keyed() && NoDoubleBooking()
    }

    constructor()
      ensures Valid() && byId == map[] && ids == []
    {
      byId := map[];
      ids := [];
    }

    /** `getAllAppointments()`: the stored appointments in insertion order. */
    function Appointments(): (r: seq<Appointment>)
      reads this
      requires Keyed()
      ensures |r| == |ids| && forall i :: 0 <= i < |ids| ==> r[i] == byId[ids[i]]
      ensures forall a :: a in r ==> a in byId.Values
      ensures forall a :: a in byId.Values ==> a in r
    {
      ValuesAtListsValues(ids, byId);
      ValuesAt(ids, byId)
    }

    /** `checkConflicts(employee, dateTime, duration)`: the scan reports exactly
        the stored live appointments of the employee that overlap the span, in
        insertion order, and reports nothing exactly when the employee is free. */
    method CheckConflicts(employee: Employee, dateTime: int, duration: int) returns (conflicts: seq<Appointment>)
      requires Keyed()
      ensures ScanReports(conflicts, employee.Id(), dateTime, duration)
      ensures |conflicts| == 0 <==> Free(employee.Id(), dateTime, duration)
    {
      var all := Appointments();
      conflicts := Scan(all, employee.Id(), dateTime, duration);
      assert all == Appointments();
      ScanOverAll(all, conflicts, employee.Id(), dateTime, duration);
    }

    /** `conflicts` is what the scan over all stored appointments reports for
        the span of `duration` minutes from `dateTime`. */
    ghost predicate ScanReports(conflicts: seq<Appointment>, employeeId: string, dateTime: int, duration: int)
      reads this, byId.Values
      requires Keyed()
    {
      conflicts == Conflicting(Appointments(), employeeId, dateTime, dateTime + duration)
    }

    /** No stored appointment hits the span of `duration` minutes from `dateTime`. */
    ghost predicate Free(employeeId: string, dateTime: int, duration: int)
      reads this, byId.Values
    {
      forall a :: a in byId.Values ==> !Hits(a, employeeId, dateTime, dateTime + duration)
    }

    /** The scan over all stored appointments is empty exactly when the employee is free. */
    lemma ScanOverAll(all: seq<Appointment>, conflicts: seq<Appointment>, employeeId: string, dateTime: int, duration: int)
      requires Keyed() && all == Appointments()
      requires Reports(conflicts, all, employeeId, dateTime, dateTime + duration)
      ensures ScanReports(conflicts, employeeId, dateTime, duration)
      ensures |conflicts| == 0 <==> Free(employeeId, dateTime, duration)
    {
      if |conflicts| == 0 {
        forall a | a in byId.Values ensures !Hits(a, employeeId, dateTime, dateTime + duration) {
          assert a in all;
        }
      } else {
        assert conflicts[0] in conflicts;
      }
    }

    /** `createAppointment`: the conflict scan runs first, then the guarded
        constructor; only a booking that passes both is stored. */
    method CreateAppointment(salon: Salon, employee: Employee, customer: Customer, service: Service,
                             dateTime: int, freshId: string) returns (r: Result<Appointment>)
      requires Valid()
      requires freshId !in byId
      modifies this, customer`appointmentHistory
      ensures Valid()
      ensures !old(Free(employee.Id(), dateTime, service.duration)) ==> r == Err(SchedulingConflict)
      ensures old(Free(employee.Id(), dateTime, service.duration)) ==>
                (r.Err? <==> old(Admission(salon, employee, service, dateTime)).Fail?) &&
                (r.Err? ==> r.error == old(Admission(salon, employee, service, dateTime)).error)
      ensures r.Err? ==> byId == old(byId) && ids == old(ids) &&
                         customer.appointmentHistory == old(customer.appointmentHistory)
      ensures r.Ok? ==> fresh(r.value) && byId == old(byId)[freshId := r.value] && ids == old(ids) + [freshId]
      ensures r.Ok? ==> r.value.status == Pending && r.value.rejectionReason == None
      ensures r.Ok? ==> r.value.Records(freshId, salon.id, employee.Id(), customer.Id(), service, dateTime)
      ensures r.Ok? ==> customer.appointmentHistory == old(customer.appointmentHistory) + [freshId]
    {
      var conflicts := CheckConflicts(employee, dateTime, service.duration);
      if |conflicts| > 0 {
        return Err(SchedulingConflict);
      }
      r := Book(salon, employee, customer, service, dateTime, freshId);
    }

    /** The part of `createAppointment` after a scan that found nothing: the
        guarded constructor, then the store and the customer's history. */
    method Book(salon: Salon, employee: Employee, customer: Customer, service: Service,
                dateTime: int, freshId: string) returns (r: Result<Appointment>)
      requires Valid()
      requires freshId !in byId
      requires Free(employee.Id(), dateTime, service.duration)
      modifies this, customer`appointmentHistory
      ensures Valid()
      ensures r.Err? <==> old(Admission(salon, employee, service, dateTime)).Fail?
      ensures r.Err? ==> r.error == old(Admission(salon, employee, service, dateTime)).error
      ensures r.Err? ==> byId == old(byId) && ids == old(ids) &&
                         customer.appointmentHistory == old(customer.appointmentHistory)
      ensures r.Ok? ==> fresh(r.value) && byId == old(byId)[freshId := r.value] && ids == old(ids) + [freshId]
      ensures r.Ok? ==> r.value.status == Pending && r.value.rejectionReason == None
      ensures r.Ok? ==> r.value.Records(freshId, salon.id, employee.Id(), customer.Id(), service, dateTime)
      ensures r.Ok? ==> customer.appointmentHistory == old(customer.appointmentHistory) + [freshId]
    {
      var created := Appointment.Create(freshId, salon, employee, customer, service, dateTime);
      if created.Err? {
        return Err(created.error);
      }
      var appointment := created.value;
      Store(appointment);
      customer.AddAppointment(appointment.id);
      r := Ok(appointment);
    }

    /** Stores a fresh live appointment that the conflict scan let through. */
    method Store(n: Appointment)
      requires Valid() && n.id !in byId && n !in byId.Values
      requires Blocking(n.status)
      requires forall a :: a in byId.Values ==> !Hits(a, n.employeeId, n.dateTime, n.EndTime())
      modifies this
      ensures Valid()
      ensures byId == old(byId)[n.id := n] && ids == old(ids) + [n.id]
      ensures |byId| == old(|byId|) + 1
    {
      InsertKeepsKeyed(ids, byId, n);
      InsertKeepsClashFree(byId, n);
      byId := byId[n.id := n];
      ids := ids + [n.id];
    }

    /** `approveAppointment(id)`. */
    method ApproveAppointment(appointmentId: string) returns (ok: bool)
      requires Valid()
      modifies if appointmentId in byId then {byId[appointmentId]} else {}
      ensures Valid()
      ensures appointmentId !in byId ==> !ok
      ensures appointmentId in byId ==>
                var a, before := byId[appointmentId], old(byId[appointmentId].status);
                ok == Next(before, Event.Approve).Some? &&
                a.status == Next(before, Event.Approve).GetOr(before) &&
                a.rejectionReason == old(a.rejectionReason)
    {
      if appointmentId !in byId {
        return false;
      }
      var appointment := byId[appointmentId];
      var outcome := appointment.Approve();
      ok := outcome.Pass?;
    }

    /** `rejectAppointment(id, reason)`: the reason is stored as given. */
    method RejectAppointment(appointmentId: string, reason: string) returns (ok: bool)
      requires Valid()
      modifies if appointmentId in byId then {byId[appointmentId]} else {}
      ensures Valid()
      ensures appointmentId !in byId ==> !ok
      ensures appointmentId in byId ==>
                var a, before := byId[appointmentId], old(byId[appointmentId].status);
                ok == Next(before, Event.Reject).Some? &&
                a.status == Next(before, Event.Reject).GetOr(before) &&
                a.rejectionReason == if ok then Some(reason) else old(a.rejectionReason)
    {
      if appointmentId !in byId {
        return false;
      }
      var appointment := byId[appointmentId];
      var outcome := appointment.Reject(reason);
      ok := outcome.Pass?;
    }

    /** `completeAppointment(id)`. */
    method CompleteAppointment(appointmentId: string) returns (ok: bool)
      requires Valid()
      modifies if appointmentId in byId then {byId[appointmentId]} else {}
      ensures Valid()
      ensures appointmentId !in byId ==> !ok
      ensures appointmentId in byId ==>
                var a, before := byId[appointmentId], old(byId[appointmentId].status);
                ok == Next(before, Event.Complete).Some? &&
                a.status == Next(before, Event.Complete).GetOr(before) &&
                a.rejectionReason == old(a.rejectionReason)
    {
      if appointmentId !in byId {
        return false;
      }
      var appointment := byId[appointmentId];
      var outcome := appointment.Complete();
      ok := outcome.Pass?;
    }

    /** `cancelAppointment(id)`. */
    method CancelAppointment(appointmentId: string) returns (ok: bool)
      requires Valid()
      modifies if appointmentId in byId then {byId[appointmentId]} else {}
      ensures Valid()
      ensures appointmentId !in byId ==> !ok
      ensures appointmentId in byId ==>
                var a, before := byId[appointmentId], old(byId[appointmentId].status);
                ok == Next(before, Event.Cancel).Some? &&
                a.status == Next(before, Event.Cancel).GetOr(before) &&
                a.rejectionReason == old(a.rejectionReason)
    {
      if appointmentId !in byId {
        return false;
      }
      var appointment := byId[appointmentId];
      var outcome := appointment.Cancel();
      ok := outcome.Pass?;
    }

    /** `getAppointmentById(id)`. */
    function GetAppointmentById(appointmentId: string): (r: Option<Appointment>)
      reads this
      requires Keyed()
      ensures r.Some? <==> appointmentId in ids
      ensures r.Some? ==> r.value in Appointments() && r.value.id == appointmentId
    {
      if appointmentId in byId then Some(byId[appointmentId]) else None
    }

    function ListAppointmentsByStatus(status: Status): (r: seq<Appointment>)
      reads this, byId.Values
      requires Keyed()
      ensures forall a :: a in r ==> a in byId.Values && a.status == status
      ensures forall a :: a in byId.Values && a.status == status ==> a in r
      ensures IsSubsequence(r, Appointments())
    {
      WithStatus(Appointments(), status)
    }

    function ListCustomerAppointments(customerId: string): (r: seq<Appointment>)
      reads this
      requires Keyed()
      ensures forall a :: a in r ==> a in byId.Values && a.customerId == customerId
      ensures forall a :: a in byId.Values && a.customerId == customerId ==> a in r
      ensures IsSubsequence(r, Appointments())
    {
      Filter(Appointments(), (a: Appointment) => a.customerId == customerId)
    }

    function ListEmployeeAppointments(employeeId: string): (r: seq<Appointment>)
      reads this
      requires Keyed()
      ensures forall a :: a in r ==> a in byId.Values && a.employeeId == employeeId
      ensures forall a :: a in byId.Values && a.employeeId == employeeId ==> a in r
      ensures IsSubsequence(r, Appointments())
    {
      Filter(Appointments(), (a: Appointment) => a.employeeId == employeeId)
    }

    function ListSalonAppointments(salonId: string): (r: seq<Appointment>)
      reads this
      requires Keyed()
      ensures forall a :: a in r ==> a in byId.Values && a.salonId == salonId
      ensures forall a :: a in byId.Values && a.salonId == salonId ==> a in r
      ensures IsSubsequence(r, Appointments())
    {
      Filter(Appointments(), (a: Appointment) => a.salonId == salonId)
    }

    /** `getPendingCount()`. */
    function GetPendingCount(): (n: nat)
      reads this, byId.Values
      requires Keyed()
      ensures n == |ListAppointmentsByStatus(Pending)|
      ensures n <= GetAppointmentCount()
    {
      |ListAppointmentsByStatus(Pending)|
    }

    /** `getAppointmentsByDate(date)`: the calendar day of an instant is given
        by `dayOf`, standing for the year, month and day of the local date. */
    function GetAppointmentsByDate(date: int, dayOf: int -> int): (r: seq<Appointment>)
      reads this
      requires Keyed()
      ensures forall a :: a in r ==> a in byId.Values && dayOf(a.dateTime) == dayOf(date)
      ensures forall a :: a in byId.Values && dayOf(a.dateTime) == dayOf(date) ==> a in r
      ensures IsSubsequence(r, Appointments())
    {
      Filter(Appointments(), (a: Appointment) => dayOf(a.dateTime) == dayOf(date))
    }

    /** `getAppointmentCount()`: the size of the map. */
    function GetAppointmentCount(): (n: nat)
      reads this
      requires Keyed()
      ensures n == |ids| == |Appointments()|
    {
      DistinctCardinality(ids);
      assert byId.Keys == set k | k in ids;
      |byId|
    }
  }

  /** The headline property: two stored appointments of one employee that are
      neither Cancelled nor Rejected have disjoint `[start, end)` spans. */
  lemma NoDoubleBookingPerEmployee(m: AppointmentManager, i: int, j: int)
    requires m.Valid()
    requires 0 <= i < |m.ids| && 0 <= j < |m.ids| && i != j
    ensures var a, b := m.Appointments()[i], m.Appointments()[j];
            a.employeeId == b.employeeId && Blocking(a.status) && Blocking(b.status) ==>
              a.EndTime() <= b.dateTime || b.EndTime() <= a.dateTime
  {
    assert m.ids[i] in m.byId && m.ids[j] in m.byId;
  }
}
