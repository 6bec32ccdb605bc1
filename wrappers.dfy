/** Optional values, results and the error conditions the booking engine raises.
    A thrown error of the source becomes the `Error` constructor of its kind of
    failure: the three blank-name checks share `EmptyName`, the four refused
    status changes share `InvalidTransition`. */
module Wrappers {

  datatype Option<+T> = None | Some(value: T) {
    function GetOr(default: T): (r: T) {
      if Some? then value else default
    }
  }

  datatype Error =
    | InvalidTimeRange      // a time slot whose start is not before its end
    | SlotConflict          // an availability slot overlapping a stored one
    | EmptyName             // an empty or whitespace-only name
    | NonPositiveDuration   // a service duration that is zero or negative
    | NegativePrice         // a negative service price
    | InvalidWorkingHours   // working hours with an empty start or end
    | EmployeeNotInSalon    // booking an employee the salon does not employ
    | CannotPerform         // booking a service the employee does not offer
    | NotAvailable          // booking outside every availability slot
    | SchedulingConflict    // booking over another live appointment
    | InvalidTransition     // a status change the state machine forbids

  datatype Result<+T> = Ok(value: T) | Err(error: Error)

  datatype Outcome = Pass | Fail(error: Error)
}
