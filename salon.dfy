/** A salon: its services, its employees and its opening hours (`src/models/Salon.ts`). */
module Salons {
  import opened Wrappers
  import opened Seqs
  import opened Text
  import opened Services
  import opened Employees

  /** Opening hours as the "HH:MM" strings the source keeps. */
  datatype WorkingHours = WorkingHours(start: string, end: string)

  function EmployeeId(e: Employee): (id: string) {
    e.Id()
  }

  class Salon {
    const id: string
    var name: string
    var workingHours: WorkingHours
    var services: seq<Service>
    var employees: seq<Employee>

    /** Service names are unique and employee ids are unique. */
    ghost predicate Valid()
      reads this
    {
      UniqueBy(services, NameOf) && UniqueBy(employees, EmployeeId)
    }

    /** The constructor stores name and hours without the setters' checks. */
    constructor(id: string, name: string, workingHours: WorkingHours)
      ensures Valid()
      ensures this.id == id && this.name == name && this.workingHours == workingHours
      ensures services == [] && employees == []
    {
      this.id := id;
      this.name := name;
      this.workingHours := workingHours;
      services := [];
      employees := [];
    }

    /** The `name` setter: rejects a blank value, otherwise stores it trimmed. */
    method SetName(value: string) returns (r: Outcome)
      modifies this`name
      ensures r.Fail? <==> IsBlank(value)
      ensures r.Fail? ==> r.error == EmptyName && name == old(name)
      ensures r.Pass? ==> Some(name) == CheckedName(value)
    {
      match CheckedName(value)
      case None =>
        r := Fail(EmptyName);
      case Some(n) =>
        name := n;
        r := Pass;
    }

    /** The `workingHours` setter: rejects an empty start or end. */
    method SetWorkingHours(value: WorkingHours) returns (r: Outcome)
      modifies this`workingHours
      ensures r.Fail? <==> value.start == "" || value.end == ""
      ensures r.Fail? ==> r.error == InvalidWorkingHours && workingHours == old(workingHours)
      ensures r.Pass? ==> workingHours == value
    {
      if value.start == "" || value.end == "" {
        r := Fail(InvalidWorkingHours);
      } else {
        workingHours := value;
        r := Pass;
      }
    }

    /** Some stored service is called `serviceName`. */
    predicate OffersService(serviceName: string)
      reads this
    {
      exists i :: 0 <= i < |services| && services[i].name == serviceName
    }

    /** Some stored employee has the id `employeeId`. */
    predicate EmploysId(employeeId: string)
      reads this
    {
      exists i :: 0 <= i < |employees| && employees[i].Id() == employeeId
    }

    /** Adds the service unless one with the same name is already stored. */
    method AddService(service: Service)
      requires Valid()
      modifies this`services
      ensures Valid() && OffersService(service.name)
      ensures old(OffersService(service.name)) ==> services == old(services)
      ensures !old(OffersService(service.name)) ==> services == old(services) + [service]
    {
      if !OffersService(service.name) {
        AppendKeepsUniqueBy(services, service, NameOf);
        services := services + [service];
        assert services[|services| - 1] == service;
      }
    }

    /** Drops every service with the given name, keeping the rest in order. */
    method RemoveService(serviceName: string)
      requires Valid()
      modifies this`services
      ensures Valid() && !OffersService(serviceName)
      ensures services == Filter(old(services), (s: Service) => s.name != serviceName)
    {
      FilterKeepsUniqueBy(services, (s: Service) => s.name != serviceName, NameOf);
      services := Filter(services, (s: Service) => s.name != serviceName);
      forall i | 0 <= i < |services| ensures services[i].name != serviceName {
        assert services[i] in services;
      }
    }

    /** Adds the employee unless one with the same id is already stored. */
    method AddEmployee(employee: Employee)
      requires Valid()
      modifies this`employees
      ensures Valid() && EmploysId(employee.Id())
      ensures old(EmploysId(employee.Id())) ==> employees == old(employees)
      ensures !old(EmploysId(employee.Id())) ==> employees == old(employees) + [employee]
    {
      if !EmploysId(employee.Id()) {
        AppendKeepsUniqueBy(employees, employee, EmployeeId);
        employees := employees + [employee];
        assert employees[|employees| - 1] == employee;
      }
    }

    /** Drops every employee with the given id, keeping the rest in order. */
    method RemoveEmployee(employeeId: string)
      requires Valid()
      modifies this`employees
      ensures Valid() && !EmploysId(employeeId)
      ensures employees == Filter(old(employees), (e: Employee) => e.Id() != employeeId)
    {
      FilterKeepsUniqueBy(employees, (e: Employee) => e.Id() != employeeId, EmployeeId);
      employees := Filter(employees, (e: Employee) => e.Id() != employeeId);
      forall i | 0 <= i < |employees| ensures employees[i].Id() != employeeId {
        assert employees[i] in employees;
      }
    }

    /** The employees able to perform the service and free at `dateTime` for its duration. */
    function GetAvailableEmployees(service: Service, dateTime: int): (r: seq<Employee>)
      reads this, employees
      ensures forall e :: e in r ==> e in employees && e.CanPerform(service) && e.AvailableFor(dateTime, service.duration)
      ensures forall e :: e in employees && e.CanPerform(service) && e.AvailableFor(dateTime, service.duration) ==> e in r
      ensures IsSubsequence(r, employees)
    {
      AvailablePerformers(employees, service, dateTime)
    }

    /** The employees able to perform the service, whatever their availability. */
    function GetEmployeesForService(service: Service): (r: seq<Employee>)
      reads this, employees
      ensures forall e :: e in r ==> e in employees && e.CanPerform(service)
      ensures forall e :: e in employees && e.CanPerform(service) ==> e in r
      ensures IsSubsequence(r, employees)
    {
      Performers(employees, service)
    }

    /** The first stored service with that name. */
    function GetServiceByName(serviceName: string): (r: Option<Service>)
      reads this
      ensures r.None? <==> !OffersService(serviceName)
      ensures r.Some? ==> exists k :: 0 <= k < |services| && services[k] == r.value && r.value.name == serviceName &&
                                      forall j :: 0 <= j < k ==> services[j].name != serviceName
    {
      Find(services, (s: Service) => s.name == serviceName)
    }

    /** The first stored employee with that id. */
    function GetEmployeeById(employeeId: string): (r: Option<Employee>)
      reads this
      ensures r.None? <==> !EmploysId(employeeId)
      ensures r.Some? ==> exists k :: 0 <= k < |employees| && employees[k] == r.value && r.value.Id() == employeeId &&
                                      forall j :: 0 <= j < k ==> employees[j].Id() != employeeId
    {
      Find(employees, (e: Employee) => e.Id() == employeeId)
    }
  }

  /** The order-preserving filter of `es` by `canPerform(service)`. */
  function Performers(es: seq<Employee>, service: Service): (r: seq<Employee>)
    reads es
    ensures forall e :: e in r ==> e in es && e.CanPerform(service)
    ensures forall e :: e in es && e.CanPerform(service) ==> e in r
    ensures IsSubsequence(r, es)
  {
    if es == [] then []
    else
      var init := Performers(es[..|es| - 1], service);
      var e := es[|es| - 1];
      if e.CanPerform(service) then
        assert (init + [e])[..|init|] == init;
        init + [e]
      else init
  }

  /** The order-preserving filter of `es` by `canPerform(service)` and
      `isAvailable(dateTime, service.duration)`. */
  function AvailablePerformers(es: seq<Employee>, service: Service, dateTime: int): (r: seq<Employee>)
    reads es
    ensures forall e :: e in r ==> e in es && e.CanPerform(service) && e.AvailableFor(dateTime, service.duration)
    ensures forall e :: e in es && e.CanPerform(service) && e.AvailableFor(dateTime, service.duration) ==> e in r
    ensures IsSubsequence(r, es)
  {
    if es == [] then []
    else
      var init := AvailablePerformers(es[..|es| - 1], service, dateTime);
      var e := es[|es| - 1];
      if e.CanPerform(service) && e.AvailableFor(dateTime, service.duration) then
        assert (init + [e])[..|init|] == init;
        init + [e]
      else init
  }

  /** The available employees are a subsequence of those able to perform the service. */
  lemma {:induction false} AvailableAmongPerformers(es: seq<Employee>, service: Service, dateTime: int)
    ensures IsSubsequence(AvailablePerformers(es, service, dateTime), Performers(es, service))
  {
    if es != [] {
      var init := es[..|es| - 1];
      var e := es[|es| - 1];
      AvailableAmongPerformers(init, service, dateTime);
      var a, p := AvailablePerformers(init, service, dateTime), Performers(init, service);
      if e.CanPerform(service) && e.AvailableFor(dateTime, service.duration) {
        assert (a + [e])[..|a|] == a && (p + [e])[..|p|] == p;
      } else if e.CanPerform(service) {
        SubsequenceOfExtension(a, p, e);
      }
    }
  }

  lemma SalonAvailableAmongForService(s: Salon, service: Service, dateTime: int)
    ensures IsSubsequence(s.GetAvailableEmployees(service, dateTime), s.GetEmployeesForService(service))
  {
    AvailableAmongPerformers(s.employees, service, dateTime);
  }
}
