# Barber-shop booking engine in Dafny

This project models the booking engine of the barber-shop automation system
(TypeScript) and proves properties of it. The model covers these parts:

- **Time slots.** The `TimeSlot` value, its construction guard and its two tests.
- **Employees.** Availability slots, the services an employee can perform, and specialties.
- **Appointments.** Guarded construction and the five-state status machine:
  Pending, Approved, Rejected, Completed and Cancelled.
- **The appointment ledger.** The conflict scan, admission, the four status
  wrappers and the read-only listings.
- **Salons, the salon registry, customers, persons, and the services with their
  haircut, beard and coloring variants.**

The headline result is `AppointmentManagers.NoDoubleBookingPerEmployee`. It
applies to any two stored appointments of one employee, when neither is
Cancelled or Rejected. Their `[start, end)` spans never overlap.

The proof rests on two facts:

- the ledger's invariant `ClashFree`, which every operation of
  `AppointmentManager` keeps;
- the admission scan, which runs before anything is stored.

Status changes only ever release a slot. `Next` never leads from Cancelled or
Rejected to a status that holds its slot.

Modelling conventions:

- **Time.** Instants are whole minutes on one local time line, as `int`.
  Adding `d` minutes is `+ d`.
- **Calendar days.** `getAppointmentsByDate` compares calendar days. The model
  takes the day of an instant as a parameter, `dayOf`.
- **Ids.** The id generator becomes a `freshId` parameter. Its only contract is
  that the id is not yet in use.
- **Maps.** A JavaScript `Map` becomes a Dafny `map` plus a `seq` of its keys in
  insertion order. This is the order in which `values()` iterates.
- **Errors.** A method that throws in the source returns `Err`/`Fail` with the
  `Error` constructor of its kind of failure: the three blank-name checks share
  `EmptyName`, the four refused status changes share `InvalidTransition`. A
  `boolean` method returns `bool`.
- **Data model.** Services are immutable values: a datatype with one variant per
  subclass. Persons, customers, employees, salons, appointments and both
  managers are classes whose fields the methods update.
- **Appointments.** An appointment keeps the ids of its salon, employee and
  customer, and the service value it was booked for.

Two behaviours of the code are kept as written:

- `cancel` succeeds from every status except Completed, so a Rejected or an
  already Cancelled appointment can be cancelled again.
- `reject` stores any reason, the empty string included.

## Model

| member | source | states |
|---|---|---|
| TimeSlots.Create | src/models/TimeSlot.ts:18-24 | construction succeeds exactly when `start < end` and keeps both ends; otherwise it fails with InvalidTimeRange, so every slot has `start < end` |
| TimeSlots.OverlapIsOpenIntersection | src/models/TimeSlot.ts:41-46 | the two-disjunct overlap test is the open intersection `s1 < e2 && s2 < e1`, and it is symmetric |
| TimeSlots.HasConflictMeaning | src/models/TimeSlot.ts:41-46 | `hasConflict(a, b)` holds exactly when `a.start < b.end && b.start < a.end`; it is symmetric |
| TimeSlots.SelfConflict | src/models/TimeSlot.ts:41-46 | every slot conflicts with itself, since its start lies before its end |
| TimeSlots.AbuttingSlotsDoNotConflict | src/models/TimeSlot.ts:41-46 | slots that only share an end point do not conflict, in either order |
| TimeSlots.IsAvailable | src/models/TimeSlot.ts:36-38 | the closed test `start <= t <= end`; its own contract only equates it with `Covers` of a zero-length span, and `IsAvailableAtBothEnds` states that it is closed at both ends |
| TimeSlots.HasConflict | src/models/TimeSlot.ts:41-46 | the two-sided test holds exactly when each slot starts before the other ends |
| TimeSlots.IsAvailableAtBothEnds | src/models/TimeSlot.ts:36-38 | `isAvailable` is closed: true at the start and at the end, false outside `[start, end]` |
| Text.Trim | src/models/Person.ts:30 | the result is a contiguous piece of the input with only white space before and after it; it is empty exactly when the input is blank, and otherwise neither begins nor ends with white space |
| Text.CheckedName | src/models/Person.ts:26-31 | a blank value is rejected; any other value yields its trim, which is non-empty |
| Text.LowerChar | src/managers/SalonManager.ts:40 | an upper-case ASCII letter gains 32 in code point, which makes it its lower-case letter; any other character stays |
| Text.ToLower | src/managers/SalonManager.ts:40 | lower-casing keeps the length, lowers each character on its own, and leaves no upper-case ASCII letter |
| Text.Contains | src/models/ColoringService.ts:42 | `includes`: the pattern occurs at some position; it has no contract of its own, and `EstimatedChemicalCost` and its two example lemmas state the cost rule built on it |
| People.Person.constructor | src/models/Person.ts:11-14 | id and name are stored as given, without validation |
| People.Person.SetName | src/models/Person.ts:26-31 | a blank value fails with EmptyName and keeps the name; otherwise the trimmed value is stored |
| Customers.Customer.constructor | src/models/Customer.ts:13-16 | a new customer has the given id and name and an empty history |
| Customers.Customer.GetRole | src/models/Customer.ts:19-21 | the role is `"CUSTOMER"` |
| Customers.Customer.GetAppointmentCount | src/models/Customer.ts:32-34 | the length of the history; it has no contract of its own, and `AddAppointment` states that each call raises it by one |
| Customers.Customer.AddAppointment | src/models/Customer.ts:24-26 | the id is appended at the end, duplicates allowed, and the count grows by one |
| Services.NewHaircut | src/models/HaircutService.ts:12-15 | name, duration and price pass through unchanged; the variant holds the haircut type |
| Services.NewBeard | src/models/BeardService.ts:12-15 | base fields pass through unchanged; the variant holds `includesTrim` |
| Services.NewColoring | src/models/ColoringService.ts:13-23 | base fields pass through unchanged; the variant holds the colour type and the consultation flag |
| Services.VariantDefaults | src/models/Service.ts:12-16 | the defaults are `"Standard"`, a trim, and `"Single Color"` with consultation; the constructor accepts a zero duration and a negative price |
| Services.SetName | src/models/Service.ts:32-37 | fails with EmptyName exactly on a blank value; otherwise only the name changes, to the trimmed value |
| Services.SetDuration | src/models/Service.ts:39-44 | fails exactly when the value is not positive; otherwise only the duration changes |
| Services.SetPrice | src/models/Service.ts:46-51 | fails exactly when the value is negative; otherwise only the price changes |
| Services.CalculateEndTime | src/models/Service.ts:63-67 | the end lies exactly `duration` minutes after the start |
| Services.IncludesWash | src/models/HaircutService.ts:27-29 | a haircut of 30 minutes or more includes a wash; it has no contract of its own, and `WashFromThirtyMinutes` states it for every haircut built by `NewHaircut` |
| Services.RequiresSpecialTools | src/models/BeardService.ts:28-30 | the `includesTrim` flag; it has no contract of its own, and `SpecialToolsForTrim` states it for every beard service built by `NewBeard` |
| Services.WashFromThirtyMinutes | src/models/HaircutService.ts:27-29 | a haircut includes a wash exactly when its duration is at least 30 |
| Services.SpecialToolsForTrim | src/models/BeardService.ts:28-30 | `requiresSpecialTools()` equals `includesTrim` |
| Services.TrimInfo | src/models/BeardService.ts:23 | the label is `"with trim"` exactly when special tools are needed, and `"styling only"` otherwise |
| Services.ConsultInfo | src/models/ColoringService.ts:35 | the consultation label is non-empty exactly when consultation is required |
| Services.EstimatedChemicalCost | src/models/ColoringService.ts:40-43 | the cost is 30 or 50, and it is 50 exactly when the lower-cased colour type contains `"highlights"` |
| Services.HighlightsCostMore | src/models/ColoringService.ts:40-43 | a colour type with mixed-case "HighLights" costs 50 |
| Services.DefaultColorCostsLess | src/models/ColoringService.ts:40-43 | the default colour type costs 30 |
| Employees.Employee.constructor | src/models/Employee.ts:17-22 | the initial specialties are copied verbatim, duplicates included; there are no slots and no services |
| Employees.Employee.GetRole | src/models/Employee.ts:25-27 | the role is `"EMPLOYEE"` |
| Employees.Employee.AddSpecialty | src/models/Employee.ts:43-47 | a known specialty changes nothing; a new one is appended; either way it is listed afterwards |
| Employees.Employee.AddAvailableSlot | src/models/Employee.ts:49-57 | succeeds exactly when the slot conflicts with no stored slot and then appends it; on failure the slots are unchanged; the slots stay pairwise conflict-free |
| Employees.Employee.AddService | src/models/Employee.ts:59-65 | appends only when no stored service has that name; the employee can perform it afterwards; names stay unique |
| Employees.Employee.RemoveService | src/models/Employee.ts:67-69 | the order-preserving filter that drops every service of that name; afterwards no service of that name can be performed |
| Employees.Employee.CanPerform | src/models/Employee.ts:86-88 | the employee can perform a service exactly when its name is among the names `getServiceNames` returns |
| Employees.Employee.IsAvailable | src/models/Employee.ts:72-83 | true exactly when some slot has `start <= t` and `t + d <= end`; both ends are included |
| Employees.BookingMayEndAtSlotEnd | src/models/Employee.ts:72-83 | a booking may end exactly at the end of a slot |
| Employees.Employee.GetServiceNames | src/models/Employee.ts:95-97 | the names of the services, in order and one per service |
| Salons.Salon.constructor | src/models/Salon.ts:22-28 | name and hours are stored without the setters' checks; there are no services and no employees |
| Salons.Salon.SetName | src/models/Salon.ts:52-57 | a blank value fails with EmptyName and keeps the name; otherwise the trimmed value is stored |
| Salons.Salon.SetWorkingHours | src/models/Salon.ts:59-65 | fails exactly when start or end is empty and then keeps the hours; otherwise stores the value |
| Salons.Salon.AddService | src/models/Salon.ts:68-73 | appends only when no service has that name; it is offered afterwards; names stay unique |
| Salons.Salon.RemoveService | src/models/Salon.ts:75-77 | the order-preserving filter that drops every service of that name; afterwards it is not offered |
| Salons.Salon.AddEmployee | src/models/Salon.ts:79-84 | appends only when no employee has that id; ids stay unique |
| Salons.Salon.RemoveEmployee | src/models/Salon.ts:86-88 | the order-preserving filter that drops every employee of that id; afterwards none is employed |
| Salons.Salon.GetAvailableEmployees | src/models/Salon.ts:91-95 | a subsequence of the employees holding exactly those who can perform the service and are available for its duration |
| Salons.Salon.GetEmployeesForService | src/models/Salon.ts:98-100 | a subsequence of the employees holding exactly those who can perform the service |
| Salons.Salon.GetServiceByName | src/models/Salon.ts:102-104 | nothing exactly when no service has that name; otherwise the first service with that name |
| Salons.Salon.GetEmployeeById | src/models/Salon.ts:106-108 | nothing exactly when no employee has that id; otherwise the first employee with that id |
| Salons.Performers | src/models/Salon.ts:98-100 | the order-preserving filter by `canPerform` |
| Salons.AvailablePerformers | src/models/Salon.ts:91-95 | the order-preserving filter by `canPerform` and `isAvailable` |
| Salons.AvailableAmongPerformers | src/models/Salon.ts:91-95 | the available performers are a subsequence of the performers |
| Salons.SalonAvailableAmongForService | src/models/Salon.ts:91-100 | `getAvailableEmployees` is a subsequence of `getEmployeesForService` |
| Appointments.Next | src/models/Appointment.ts:99-126 | the transition table: approve and reject only from Pending, complete only from Approved, cancel from all but Completed; nothing reaches Pending, nothing leaves Completed, from Rejected or Cancelled only cancel succeeds |
| Appointments.RunStaysReleased | src/models/Appointment.ts:99-126 | once Cancelled or Rejected, any series of operations leaves the appointment Cancelled or Rejected |
| Appointments.RunNeverReturnsToPending | src/models/Appointment.ts:99-126 | no series of operations leads back to Pending |
| Appointments.RunFromCompleted | src/models/Appointment.ts:114-126 | Completed is final under any series of operations |
| Appointments.Admission | src/models/Appointment.ts:39-49 | the three checks in order: the salon employs the employee, the employee can perform the service, the employee is available; each failure has its own error |
| Appointments.Appointment.Admit | src/models/Appointment.ts:51-57 | the fields are stored as given; the status is Pending and there is no rejection reason |
| Appointments.Appointment.Create | src/models/Appointment.ts:30-58 | fails exactly when a check fails, with that check's error; otherwise a fresh Pending appointment recording the given booking |
| Appointments.Appointment.EndTime | src/models/Appointment.ts:94-96 | the end is the start plus the service's duration |
| Appointments.Appointment.Approve | src/models/Appointment.ts:99-104 | Pending becomes Approved; from any other status it fails and leaves the status unchanged |
| Appointments.Appointment.Reject | src/models/Appointment.ts:106-112 | Pending becomes Rejected and stores any reason; from any other status it fails and changes nothing |
| Appointments.Appointment.Complete | src/models/Appointment.ts:114-119 | Approved becomes Completed; from any other status it fails and changes nothing |
| Appointments.Appointment.Cancel | src/models/Appointment.ts:121-126 | every status but Completed becomes Cancelled; from Completed it fails and changes nothing |
| Appointments.Appointment.ConflictsWith | src/models/Appointment.ts:129-143 | true exactly for the same employee id when each appointment starts before the other ends |
| Appointments.ConflictsWithMeaning | src/models/Appointment.ts:129-143 | `conflictsWith` holds exactly for the same employee id with overlapping `[start, end)` spans; it is symmetric |
| AppointmentManagers.Conflicting | src/managers/AppointmentManager.ts:147-169 | a subsequence of the appointments holding exactly those that are neither Cancelled nor Rejected, belong to the employee and overlap the span |
| AppointmentManagers.Scan | src/managers/AppointmentManager.ts:142-172 | the loop builds exactly `Conflicting` of the appointments in iteration order |
| AppointmentManagers.WithStatus | src/managers/AppointmentManager.ts:116-118 | a subsequence of the appointments holding exactly those with the given status |
| AppointmentManagers.InsertKeepsKeyed | src/managers/AppointmentManager.ts:35-37 | storing under a new id keeps every key listed once, in insertion order |
| AppointmentManagers.InsertKeepsClashFree | src/managers/AppointmentManager.ts:30-37 | storing a live appointment the scan found free keeps the map free of double bookings |
| AppointmentManagers.AppointmentManager.constructor | src/managers/AppointmentManager.ts:17-19 | the ledger starts empty |
| AppointmentManagers.AppointmentManager.Appointments | src/managers/AppointmentManager.ts:46-48 | the stored appointments in insertion order, each stored one exactly once by position |
| AppointmentManagers.AppointmentManager.CheckConflicts | src/managers/AppointmentManager.ts:142-172 | reports exactly the live appointments of the employee that overlap `[t, t + d)`, Completed ones included, in insertion order; it reports nothing exactly when the employee is free |
| AppointmentManagers.AppointmentManager.CreateAppointment | src/managers/AppointmentManager.ts:22-43 | a conflict fails first with SchedulingConflict; otherwise it fails exactly as the constructor's checks do; on failure nothing changes; on success one new Pending appointment is stored under the fresh id and the id is added to the customer's history; the ledger stays free of double bookings |
| AppointmentManagers.AppointmentManager.Book | src/managers/AppointmentManager.ts:35-42 | after an empty scan: the constructor's checks decide; success stores the appointment and extends the history |
| AppointmentManagers.AppointmentManager.Store | src/managers/AppointmentManager.ts:37 | the map gains exactly the new id, last in order, and stays free of double bookings |
| AppointmentManagers.AppointmentManager.ApproveAppointment | src/managers/AppointmentManager.ts:56-68 | false for an unknown id; otherwise true exactly when approval is allowed, and only that appointment's status follows the transition table |
| AppointmentManagers.AppointmentManager.RejectAppointment | src/managers/AppointmentManager.ts:71-83 | false for an unknown id; otherwise true exactly when rejection is allowed; only that appointment's status and reason change, and only on success |
| AppointmentManagers.AppointmentManager.CompleteAppointment | src/managers/AppointmentManager.ts:86-98 | false for an unknown id; otherwise true exactly when completion is allowed; only that appointment's status changes |
| AppointmentManagers.AppointmentManager.CancelAppointment | src/managers/AppointmentManager.ts:101-113 | false for an unknown id; otherwise true exactly when cancellation is allowed; only that appointment's status changes |
| AppointmentManagers.AppointmentManager.GetAppointmentById | src/managers/AppointmentManager.ts:51-53 | found exactly for a stored id, and then the appointment with that id |
| AppointmentManagers.AppointmentManager.ListAppointmentsByStatus | src/managers/AppointmentManager.ts:116-118 | an order-preserving filter holding exactly the stored appointments with that status |
| AppointmentManagers.AppointmentManager.ListCustomerAppointments | src/managers/AppointmentManager.ts:121-125 | an order-preserving filter holding exactly the customer's appointments |
| AppointmentManagers.AppointmentManager.ListEmployeeAppointments | src/managers/AppointmentManager.ts:128-132 | an order-preserving filter holding exactly the employee's appointments |
| AppointmentManagers.AppointmentManager.ListSalonAppointments | src/managers/AppointmentManager.ts:135-139 | an order-preserving filter holding exactly the salon's appointments |
| AppointmentManagers.AppointmentManager.GetPendingCount | src/managers/AppointmentManager.ts:175-177 | the length of the Pending listing, at most the total count |
| AppointmentManagers.AppointmentManager.GetAppointmentsByDate | src/managers/AppointmentManager.ts:180-189 | an order-preserving filter holding exactly the appointments on the same calendar day |
| AppointmentManagers.AppointmentManager.GetAppointmentCount | src/managers/AppointmentManager.ts:192-194 | the map size, equal to the number of listed appointments |
| AppointmentManagers.NoDoubleBookingPerEmployee | src/managers/AppointmentManager.ts:30-33 | two distinct stored appointments of one employee, neither Cancelled nor Rejected, have disjoint `[start, end)` spans |
| SalonManagers.FirstNamed | src/managers/SalonManager.ts:38-42 | nothing exactly when no salon matches ignoring case; otherwise the first match |
| SalonManagers.Offering | src/managers/SalonManager.ts:75-79 | a subsequence of the salons holding exactly those offering a service of that name |
| SalonManagers.StaffOf | src/managers/SalonManager.ts:82-88 | holds exactly the employees of the salons |
| SalonManagers.StaffOfLength | src/managers/SalonManager.ts:82-88 | duplicates are kept: the length is the sum of the salons' employee counts |
| SalonManagers.MenuOf | src/managers/SalonManager.ts:91-97 | holds exactly the services of the salons |
| SalonManagers.Put | src/managers/SalonManager.ts:95 | `map.set`: the name maps to the service; a known name keeps its position, a new one goes last |
| SalonManagers.FirstIndexOfIsFirst | src/managers/SalonManager.ts:91-99 | the first-occurrence index finds the first service of that name, or -1 exactly when there is none |
| SalonManagers.LastIndexOfIsLast | src/managers/SalonManager.ts:91-99 | the last-occurrence index finds the last service of that name, or -1 exactly when there is none |
| SalonManagers.PutSummarizes | src/managers/SalonManager.ts:94-96 | one more `set` keeps the index summarizing the services seen so far |
| SalonManagers.PutAllSummarizes | src/managers/SalonManager.ts:92-97 | after all `set` calls the keys are the names, in first-occurrence order, each under the last service of that name |
| SalonManagers.MergedEntries | src/managers/SalonManager.ts:98 | entry `i` of the result is the value under the `i`-th key |
| SalonManagers.MergedNamesUnique | src/managers/SalonManager.ts:91-99 | no two returned services share a name |
| SalonManagers.MergedCoversNames | src/managers/SalonManager.ts:91-99 | every service name of every salon is returned |
| SalonManagers.MergedKeepsLast | src/managers/SalonManager.ts:91-99 | each returned service is the last one of its name |
| SalonManagers.MergedFirstOccurrenceOrder | src/managers/SalonManager.ts:91-99 | names appear in the order of their first occurrence |
| SalonManagers.SalonManager.constructor | src/managers/SalonManager.ts:15-17 | the registry starts empty |
| SalonManagers.SalonManager.CreateSalon | src/managers/SalonManager.ts:20-25 | a fresh salon with the given name and hours and no services or employees is stored under the fresh id, last in order; the count grows by one |
| SalonManagers.SalonManager.GetAllSalons | src/managers/SalonManager.ts:28-30 | the stored salons in insertion order, each of them listed |
| SalonManagers.SalonManager.GetSalonById | src/managers/SalonManager.ts:33-35 | found exactly for a stored id, and then the salon with that id |
| SalonManagers.SalonManager.GetSalonByName | src/managers/SalonManager.ts:38-42 | nothing exactly when no salon matches ignoring case; otherwise the first match in insertion order |
| SalonManagers.SalonManager.AddEmployeeToSalon | src/managers/SalonManager.ts:45-52 | false and no change for an unknown id; otherwise true, with the salon's deduplicated add of the employee; the salon's services, name and hours stay as they were |
| SalonManagers.SalonManager.AddServiceToSalon | src/managers/SalonManager.ts:55-62 | false and no change for an unknown id; otherwise true, with the salon's deduplicated add of the service; the salon's employees, name and hours stay as they were |
| SalonManagers.SalonManager.RemoveSalon | src/managers/SalonManager.ts:65-67 | returns whether the id was present; afterwards it is absent and the other salons keep their order |
| SalonManagers.SalonManager.GetSalonCount | src/managers/SalonManager.ts:70-72 | the map size, equal to the number of listed salons |
| SalonManagers.SalonManager.FindSalonsWithService | src/managers/SalonManager.ts:75-79 | an order-preserving filter holding exactly the salons offering a service of that name |
| SalonManagers.SalonManager.GetAllEmployees | src/managers/SalonManager.ts:82-88 | the loop builds the concatenation of each salon's employees, in salon order |
| SalonManagers.SalonManager.GetAllServices | src/managers/SalonManager.ts:91-99 | the nested loops build the map's values; names are unique, and each name sits at its first occurrence with the last salon's service |

## Left out

- The interactive layer `src/main.ts` is not part of this model: prompts, console output and sample data.
- The id generator `src/utils/idGenerator.ts` depends on the clock and on randomness. Fresh ids are a parameter whose only contract is that the id is unused.
- The `Role` enumeration is folded into the `GetRole` results.
- String rendering is left out: `getInfo`, `getShortInfo`, `getDescription`, `toString` and `toLocaleString`. Only the trim label (`TrimInfo`) and the consultation label (`ConsultInfo`) are modelled.
- JavaScript `Date` semantics are left out: time zones, daylight saving and millisecond resolution. The calendar day used by `getAppointmentsByDate` is the parameter `dayOf`.
- Instants are immutable integers, so the model drops the mutability and aliasing of `Date` objects. The `TimeSlot` and `Appointment` getters hand out their internal `Date`, and a caller that changed it would move a stored slot or booking; the model cannot express that.
- `Text.Trim` and `Text.ToLower`: only ASCII white space and ASCII letters are handled, not full Unicode.
- The `console.error` calls in the status wrappers are side output only and are not modelled.
- Object aliasing is not modelled, for three reasons:
  - An appointment records the ids of its salon, employee and customer and a copy of the service value, not references to the objects.
  - A later change to an employee's slots does not reach a stored appointment; the model's appointments cannot observe it either.
  - A caller holding an appointment object can call its status methods behind the ledger's back. Those transitions only release slots, but the model states the ledger's invariant only for changes made through the ledger.
- `Services.SetName`, `Services.SetDuration` and `Services.SetPrice` return an updated service value instead of changing an object in place. The setters are protected and no subclass calls them.
- The copying getters (`availableSlots`, `services`, `employees`, `appointmentHistory`) need no model. Dafny sequences are values, so a caller can never alter the stored list.
- Prices and durations are whole numbers (`int`), not floating point.
- `Person` is an abstract base class in the source. Here customers and employees each hold a `Person` instead of inheriting from it.
- `getAppointmentCount` never decreases, but no separate lemma states it. It follows from the contracts: `CreateAppointment` only adds a key, and the status wrappers cannot modify the ledger's map at all.
- There is no concurrency in the source, so none is modelled.
