/** A staff member: the services they can perform and the availability slots
    they can be booked in (`src/models/Employee.ts`). */
module Employees {
  import opened Wrappers
  import opened Seqs
  import opened TimeSlots
  import opened Services
  import opened People

  class Employee {
    const person: Person
    var specialties: seq<string>
    var availableSlots: seq<TimeSlot>
    var services: seq<Service>

    /** The stored slots never conflict with each other and no two stored
        services share a name. */
    ghost predicate Valid()
      reads this
    {
      PairwiseFree(availableSlots) && UniqueBy(services, NameOf)
    }

    /** The initial specialties are copied as given, duplicates included. */
    constructor(id: string, name: string, specialties: seq<string> := [])
      ensures Valid()
      ensures fresh(person) && person.id == id && person.name == name
      ensures this.specialties == specialties && availableSlots == [] && services == []
    {
      person := new Person(id, name);
      this.specialties := specialties;
      availableSlots := [];
      services := [];
    }

    function Id(): (id: string) {
      person.id
    }

    function GetRole(): (role: string)
      ensures role == "EMPLOYEE"
    {
      "EMPLOYEE"
    }

    /** Adds a specialty unless it is already listed. */
    method AddSpecialty(specialty: string)
      modifies this`specialties
      ensures specialty in specialties
      ensures specialty in old(specialties) ==> specialties == old(specialties)
      ensures specialty !in old(specialties) ==> specialties == old(specialties) + [specialty]
    {
      if specialty !in specialties {
        specialties := specialties + [specialty];
      }
    }

    /** Appends the slot when it conflicts with no stored slot; otherwise fails
        and leaves the slots as they were. */
    method AddAvailableSlot(slot: TimeSlot) returns (r: Outcome)
      requires Valid()
      modifies this`availableSlots
      ensures Valid()
      ensures r.Pass? <==> forall i :: 0 <= i < |old(availableSlots)| ==> !HasConflict(old(availableSlots)[i], slot)
      ensures r.Fail? ==> r.error == SlotConflict && availableSlots == old(availableSlots)
      ensures r.Pass? ==> availableSlots == old(availableSlots) + [slot]
    {
      var i := 0;
      while i < |availableSlots|
        invariant 0 <= i <= |availableSlots|
        invariant forall j :: 0 <= j < i ==> !HasConflict(availableSlots[j], slot)
      {
        if HasConflict(availableSlots[i], slot) {
          return Fail(SlotConflict);
        }
        i := i + 1;
      }
      availableSlots := availableSlots + [slot];
      r := Pass;
    }

    /** Adds the service unless one with the same name is already stored. */
    method AddService(service: Service)
      requires Valid()
      modifies this`services
      ensures Valid() && CanPerform(service)
      ensures old(CanPerform(service)) ==> services == old(services)
      ensures !old(CanPerform(service)) ==> services == old(services) + [service]
    {
      if !CanPerform(service) {
        AppendKeepsUniqueBy(services, service, NameOf);
        services := services + [service];
        assert services[|services| - 1] == service;
      }
    }

    /** Drops every service with the given name, keeping the rest in order. */
    method RemoveService(serviceName: string)
      requires Valid()
      modifies this`services
      ensures Valid()
      ensures services == Filter(old(services), (s: Service) => s.name != serviceName)
      ensures forall s: Service :: s.name == serviceName ==> !CanPerform(s)
    {
      FilterKeepsUniqueBy(services, (s: Service) => s.name != serviceName, NameOf);
      services := Filter(services, (s: Service) => s.name != serviceName);
      forall i | 0 <= i < |services| ensures services[i].name != serviceName {
        assert services[i] in services;
      }
    }

    /** Some slot contains `[dateTime, dateTime + duration]`, both ends included. */
    predicate AvailableFor(dateTime: int, duration: int)
      reads this
    {
      exists i :: 0 <= i < |availableSlots| && Covers(availableSlots[i], dateTime, dateTime + duration)
    }

    /** `isAvailable(dateTime, duration)`: the scan over the slots. */
    method IsAvailable(dateTime: int, duration: int) returns (b: bool)
      ensures b <==> exists i :: 0 <= i < |availableSlots| &&
                       availableSlots[i].start <= dateTime && dateTime + duration <= availableSlots[i].end
      ensures b == AvailableFor(dateTime, duration)
    {
      var endTime := dateTime + duration;
      var i := 0;
      while i < |availableSlots|
        invariant 0 <= i <= |availableSlots|
        invariant forall j :: 0 <= j < i ==> !Covers(availableSlots[j], dateTime, endTime)
      {
        var slot := availableSlots[i];
        if dateTime >= slot.start && endTime <= slot.end {
          return true;
        }
        i := i + 1;
      }
      return false;
    }

    /** `canPerform(service)`: some stored service has the same name. */
    predicate CanPerform(service: Service)
      reads this
      ensures CanPerform(service) <==> service.name in GetServiceNames()
    {
      exists i :: 0 <= i < |services| && services[i].name == service.name
    }

    /** The names of the stored services, in order. */
    function GetServiceNames(): (names: seq<string>)
      reads this
      ensures |names| == |services|
      ensures forall i :: 0 <= i < |services| ==> names[i] == services[i].name
    {
      seq(|services|, i requires 0 <= i < |services| reads this => services[i].name)
    }
  }

  /** A booking may end exactly when a slot ends. */
  lemma BookingMayEndAtSlotEnd(e: Employee, i: int, duration: int)
    requires 0 <= i < |e.availableSlots|
    requires e.availableSlots[i].start <= e.availableSlots[i].end - duration
    ensures e.AvailableFor(e.availableSlots[i].end - duration, duration)
  {
  }
}
