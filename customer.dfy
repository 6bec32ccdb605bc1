/** A customer and the ids of the appointments booked for them (`src/models/Customer.ts`). */
module Customers {
  import opened People

  class Customer {
    const person: Person
    var appointmentHistory: seq<string>

    /** A new customer has an empty history. */
    constructor(id: string, name: string)
      ensures fresh(person) && person.id == id && person.name == name
      ensures appointmentHistory == []
    {
      person := new Person(id, name);
      appointmentHistory := [];
    }

    function Id(): (id: string) {
      person.id
    }

    function GetRole(): (role: string)
      ensures role == "CUSTOMER"
    {
      "CUSTOMER"
    }

    /** Appends the id at the end; the same id may be added twice. */
    method AddAppointment(appointmentId: string)
      modifies this`appointmentHistory
      ensures appointmentHistory == old(appointmentHistory) + [appointmentId]
      ensures GetAppointmentCount() == old(GetAppointmentCount()) + 1
    {
      appointmentHistory := appointmentHistory + [appointmentId];
    }

    function GetAppointmentCount(): (n: nat)
      reads this
    {
      |appointmentHistory|
    }
  }
}
