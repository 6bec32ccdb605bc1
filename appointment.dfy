/** A booking and its five-state life cycle (`src/models/Appointment.ts`).
    The appointment keeps the ids of its salon, employee and customer and the
    service value it was booked for, as they were at admission. */
module Appointments {
  import opened Wrappers
  import opened TimeSlots
  import opened Services
  import opened Employees
  import opened Customers
  import opened Salons

  datatype Status = Pending | Approved | Rejected | Completed | Cancelled

  /** The four status-changing operations. */
  datatype Event = Approve | Reject | Complete | Cancel

  /** Appointments in these states still hold their time: only Cancelled and
      Rejected ones are skipped by the conflict scan. */
  predicate Blocking(s: Status) {
    s != Cancelled && s != Rejected
  }

  /** The transition table: the new status, or `None` when the operation throws. */
  function Next(s: Status, e: Event): (r: Option<Status>)
    ensures r != Some(Pending)
    ensures s == Completed ==> r.None?
    ensures s == Rejected || s == Cancelled ==> (r.Some? <==> e == Cancel)
    ensures e == Cancel ==> (r.Some? <==> s != Completed) && (r.Some? ==> r.value == Cancelled)
    ensures e == Approve ==> (r.Some? <==> s == Pending) && (r.Some? ==> r.value == Approved)
    ensures e == Reject ==> (r.Some? <==> s == Pending) && (r.Some? ==> r.value == Rejected)
    ensures e == Complete ==> (r.Some? <==> s == Approved) && (r.Some? ==> r.value == Completed)
    ensures r.Some? && Blocking(r.value) ==> Blocking(s)
  {
    match e
    case Approve => if s == Pending then Some(Approved) else None
    case Reject => if s == Pending then Some(Rejected) else None
    case Complete => if s == Approved then Some(Completed) else None
    case Cancel => if s == Completed then None else Some(Cancelled)
  }

  /** The status after a series of operations, each failed one leaving the
      status as it was (as the ledger's wrappers do). */
  function Run(s: Status, events: seq<Event>): (r: Status)
    decreases |events|
  {
    if events == [] then s
    else Run(Next(s, events[0]).GetOr(s), events[1..])
  }

  /** Once Cancelled or Rejected, an appointment never blocks its slot again. */
  lemma {:induction false} RunStaysReleased(s: Status, events: seq<Event>)
    requires !Blocking(s)
    ensures !Blocking(Run(s, events))
    decreases |events|
  {
    if events != [] {
      RunStaysReleased(Next(s, events[0]).GetOr(s), events[1..]);
    }
  }

  /** Nothing leads back to Pending. */
  lemma {:induction false} RunNeverReturnsToPending(s: Status, events: seq<Event>)
    requires s != Pending
    ensures Run(s, events) != Pending
    decreases |events|
  {
    if events != [] {
      RunNeverReturnsToPending(Next(s, events[0]).GetOr(s), events[1..]);
    }
  }

  /** Completed is final. */
  lemma {:induction false} RunFromCompleted(events: seq<Event>)
    ensures Run(Completed, events) == Completed
    decreases |events|
  {
    if events != [] {
      RunFromCompleted(events[1..]);
    }
  }

  /** The constructor's three checks, in the source's order, each with its own error. */
  function Admission(salon: Salon, employee: Employee, service: Service, dateTime: int): (r: Outcome)
    reads salon, employee
    ensures !salon.EmploysId(employee.Id()) ==> r == Fail(EmployeeNotInSalon)
    ensures salon.EmploysId(employee.Id()) && !employee.CanPerform(service) ==> r == Fail(CannotPerform)
    ensures (salon.EmploysId(employee.Id()) && employee.CanPerform(service) &&
             !employee.AvailableFor(dateTime, service.duration)) ==> r == Fail(NotAvailable)
    ensures r.Pass? <==> salon.EmploysId(employee.Id()) && employee.CanPerform(service) &&
                         employee.AvailableFor(dateTime, service.duration)
  {
    if salon.GetEmployeeById(employee.Id()).None? then Fail(EmployeeNotInSalon)
    else if !employee.CanPerform(service) then Fail(CannotPerform)
    else if !employee.AvailableFor(dateTime, service.duration) then Fail(NotAvailable)
    else Pass
  }

  class Appointment {
    const id: string
    const salonId: string
    const employeeId: string
    const customerId: string
    const service: Service
    const dateTime: int
    var status: Status
    var rejectionReason: Option<string>

    /** The booking's snapshot fields, fixed at construction. */
    predicate Records(id: string, salonId: string, employeeId: string, customerId: string,
                      service: Service, dateTime: int)
    {
      && this.id == id && this.salonId == salonId && this.employeeId == employeeId
      && this.customerId == customerId && this.service == service && this.dateTime == dateTime
    }

    /** Stores the fields of an admitted booking; `Create` runs the checks first. */
    constructor Admit(id: string, salonId: string, employeeId: string, customerId: string,
                      service: Service, dateTime: int)
      ensures Records(id, salonId, employeeId, customerId, service, dateTime)
      ensures status == Pending && rejectionReason == None
    {
      this.id := id;
      this.salonId := salonId;
      this.employeeId := employeeId;
      this.customerId := customerId;
      this.service := service;
      this.dateTime := dateTime;
      status := Pending;
      rejectionReason := None;
    }

    /** The guarded constructor: fails with the first failing check's error, and
        otherwise yields a fresh Pending appointment without a rejection reason. */
    static method Create(id: string, salon: Salon, employee: Employee, customer: Customer,
                         service: Service, dateTime: int) returns (r: Result<Appointment>)
      ensures r.Err? <==> Admission(salon, employee, service, dateTime).Fail?
      ensures r.Err? ==> r.error == Admission(salon, employee, service, dateTime).error
      ensures r.Ok? ==> fresh(r.value) && r.value.status == Pending && r.value.rejectionReason == None
      ensures r.Ok? ==> r.value.Records(id, salon.id, employee.Id(), customer.Id(), service, dateTime)
    {
      var check := Admission(salon, employee, service, dateTime);
      if check.Fail? {
        return Err(check.error);
      }
      var a := new Appointment.Admit(id, salon.id, employee.Id(), customer.Id(), service, dateTime);
      r := Ok(a);
    }

    /** `getEndTime()`: the start plus the service's duration. */
    function EndTime(): (t: int)
      ensures t == dateTime + service.duration
    {
      CalculateEndTime(service, dateTime)
    }

    method Approve() returns (r: Outcome)
      modifies this`status
      ensures r.Pass? <==> old(status) == Pending
      ensures r.Fail? ==> r.error == InvalidTransition && status == old(status)
      ensures r.Pass? ==> status == Approved
      ensures Next(old(status), Event.Approve) == if r.Pass? then Some(status) else None
    {
      if status != Pending {
        return Fail(InvalidTransition);
      }
      status := Approved;
      r := Pass;
    }

    /** Rejects a Pending appointment and stores the reason, whatever it is. */
    method Reject(reason: string) returns (r: Outcome)
      modifies this`status, this`rejectionReason
      ensures r.Pass? <==> old(status) == Pending
      ensures r.Fail? ==> r.error == InvalidTransition && status == old(status) && rejectionReason == old(rejectionReason)
      ensures r.Pass? ==> status == Rejected && rejectionReason == Some(reason)
      ensures Next(old(status), Event.Reject) == if r.Pass? then Some(status) else None
    {
      if status != Pending {
        return Fail(InvalidTransition);
      }
      status := Rejected;
      rejectionReason := Some(reason);
      r := Pass;
    }

    method Complete() returns (r: Outcome)
      modifies this`status
      ensures r.Pass? <==> old(status) == Approved
      ensures r.Fail? ==> r.error == InvalidTransition && status == old(status)
      ensures r.Pass? ==> status == Completed
      ensures Next(old(status), Event.Complete) == if r.Pass? then Some(status) else None
    {
      if status != Approved {
        return Fail(InvalidTransition);
      }
      status := Completed;
      r := Pass;
    }

    /** Cancels from every status but Completed, Rejected and Cancelled included. */
    method Cancel() returns (r: Outcome)
      modifies this`status
      ensures r.Pass? <==> old(status) != Completed
      ensures r.Fail? ==> r.error == InvalidTransition && status == old(status)
      ensures r.Pass? ==> status == Cancelled
      ensures Next(old(status), Event.Cancel) == if r.Pass? then Some(status) else None
    {
      if status == Completed {
        return Fail(InvalidTransition);
      }
      status := Cancelled;
      r := Pass;
    }

    /** `conflictsWith(other)`: same employee and overlapping `[start, end)` spans. */
    predicate ConflictsWith(other: Appointment)
      ensures ConflictsWith(other) <==> employeeId == other.employeeId &&
                                        dateTime < other.EndTime() && other.dateTime < EndTime()
    {
      employeeId == other.employeeId && Overlap(dateTime, EndTime(), other.dateTime, other.EndTime())
    }
  }

  lemma ConflictsWithMeaning(a: Appointment, b: Appointment)
    ensures a.ConflictsWith(b) <==> (a.employeeId == b.employeeId &&
                                    a.dateTime < b.dateTime + b.service.duration &&
                                    b.dateTime < a.dateTime + a.service.duration)
    ensures a.ConflictsWith(b) <==> b.ConflictsWith(a)
  {
  }
}
