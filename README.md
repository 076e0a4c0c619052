# Hospital management core, modelled in Dafny

This project models the decision logic of a console hospital management
system. Its modules `hospital.py`, `finance.py`, `pharmacy.py`,
`appointment.py` and `user.py` keep their state in SQL Server tables and in
two JSON files. Each table becomes a field of one shared `Tables.Storage`
object:

- Keyed tables are maps: Rooms, Departments, Users and PharmacyInventory.
- Tables whose row order matters are sequences: FinancialTransactions, Revenue
  and Costs. So is Appointments, whose identity column is the counter
  `nextAppointmentId`.
- The prescriptions and patient-records files are maps from patient to list.

Each component class holds the storage in a `const db` field. Its methods
change only the table fields named in their `modifies` clauses. Pure parts
of the code are functions, with lemmas about them. These are the latest
balance, the pending-payments and profit aggregates, the autocompletion,
the phone-number filter, login, and the appointment views.

Modules:

- `Tables`: the rows and the storage. `Storage.Valid` says appointment ids
  strictly increase and stay below the identity counter.
- `Hospitals`: the `Hospital` registry of departments, rooms, users,
  medications, scheduled appointments and raw ledger rows.
- `Finances`: the running-balance ledger (`Finance`), pending payments and
  profit.
- `Pharmacies`: the `Pharmacy` inventory mirror, restocking, and dispensing
  that charges through `Finance`.
- `Appointments`: booking, loading into an id-keyed map, cancelling by id,
  and the whole-table save.
- `Users`: autocompletion, signup with phone normalisation, login, the
  doctor's books, the appointment views, the workforce head-counts, and the
  role classes `User`, `Admin`, `Doctor`, `Patient` and `Receptionist`.

The code's choices that the model keeps:

- `allocate_room` takes `TOP 1` with no `ORDER BY`, so the model lets it
  pick any available room of the type.
- `get_balance` takes the patient's most recent row, modelled as the last
  one appended.
- A quantity of 0 or less passes the pharmacy's stock check and changes the
  stock. The finance layer then refuses the charge.
- Cancelling an appointment does not free its room.
- `save_appointments` does not keep the keys of the map it is given.
- `load_users` builds rows with no 'specialization' or 'shift' key, so
  every workforce counter counts everyone under the key None.

## Model

| member | source | states |
|---|---|---|
| `Hospitals.Hospital.constructor` | Hospital-Management-System-main/Hospital-Management-System-main/src/modules/hospital.py:19-29 | the hospital's department mirror is the Departments table read at start-up |
| `Hospitals.Hospital.AddDepartment` | Hospital-Management-System-main/Hospital-Management-System-main/src/modules/hospital.py:43-52 | inserts `(name, description)` iff the name is absent; a duplicate leaves the table, and so the existing description, unchanged |
| `Hospitals.Hospital.RemoveDepartment` | Hospital-Management-System-main/Hospital-Management-System-main/src/modules/hospital.py:66-72 | reports whether the department existed; the table loses exactly that key and is otherwise unchanged |
| `Hospitals.Hospital.AddRoom` | Hospital-Management-System-main/Hospital-Management-System-main/src/modules/hospital.py:86-95 | a new number is inserted as an available room of the given type; an existing number leaves Rooms unchanged |
| `Hospitals.Hospital.AllocateRoom` | Hospital-Management-System-main/Hospital-Management-System-main/src/modules/hospital.py:109-126 | returns None iff no available room of the type exists, and then Rooms is unchanged; a returned room had the type and was available, is now occupied, and every other room is unchanged |
| `Hospitals.Hospital.ReleaseRoom` | Hospital-Management-System-main/Hospital-Management-System-main/src/modules/hospital.py:141-150 | reports whether the number exists; Rooms becomes `Released`, so an unknown number changes nothing |
| `Hospitals.Released` | Hospital-Management-System-main/Hospital-Management-System-main/src/modules/hospital.py:143-146 | an existing room becomes available with its type kept, whatever its prior state; every other room and the key set are unchanged |
| `Hospitals.ReleaseIdempotent` | Hospital-Management-System-main/Hospital-Management-System-main/src/modules/hospital.py:141-148 | releasing a room twice is the same as releasing it once |
| `Hospitals.AllocateThenRelease` | Hospital-Management-System-main/Hospital-Management-System-main/src/modules/hospital.py:117-146 | allocating an allocatable room and then releasing it gives back the Rooms table as it was |
| `Hospitals.Hospital.AddUser` | Hospital-Management-System-main/Hospital-Management-System-main/src/modules/hospital.py:199-208 | refuses an existing username; otherwise inserts exactly one row with the given fields |
| `Hospitals.Hospital.ScheduleAppointment` | Hospital-Management-System-main/Hospital-Management-System-main/src/modules/hospital.py:222-225 | appends one appointment with the six given fields under the next identity id, not an emergency; the id invariant is kept |
| `Hospitals.Hospital.AddMedication` | Hospital-Management-System-main/Hospital-Management-System-main/src/modules/hospital.py:300-309 | refuses an existing medication; otherwise inserts it with the given stock and price |
| `Hospitals.Hospital.AddFinancialTransaction` | Hospital-Management-System-main/Hospital-Management-System-main/src/modules/hospital.py:281-284 | appends exactly one ledger row with the caller's balance, unrelated to earlier rows |
| `Finances.MedicationKind` | Hospital-Management-System-main/Hospital-Management-System-main/src/modules/finance.py:84 | a medication charge's type starts with "Medication Payment", so the pending-payments filter sees it |
| `Finances.Balance` | Hospital-Management-System-main/Hospital-Management-System-main/src/modules/finance.py:50-57 | a patient with no rows has balance 0 |
| `Finances.BalanceIsLatest` | Hospital-Management-System-main/Hospital-Management-System-main/src/modules/finance.py:50-57 | the balance is the one on the patient's most recent row; later rows of other patients do not matter |
| `Finances.Saved` | Hospital-Management-System-main/Hospital-Management-System-main/src/modules/finance.py:30-36 | the ledger keeps every earlier row and gains one row with the patient, type and amount; that patient's balance moves by exactly the amount |
| `Finances.SavedOtherBalance` | Hospital-Management-System-main/Hospital-Management-System-main/src/modules/finance.py:50-54 | a transaction of one patient leaves every other patient's balance unchanged |
| `Finances.SavedKeepsRunning` | Hospital-Management-System-main/Hospital-Management-System-main/src/modules/finance.py:30-36 | saving keeps every row's balance equal to the previous balance plus its amount |
| `Finances.BalanceIsTotal` | Hospital-Management-System-main/Hospital-Management-System-main/src/modules/finance.py:30-57 | where every row is a running balance, the balance is the sum of the patient's amounts |
| `Finances.MovesBySum` | Hospital-Management-System-main/Hospital-Management-System-main/src/modules/finance.py:30-36 | saving amounts a1..an moves the balance by a1 + ... + an |
| `Finances.BalanceAfterSaves` | Hospital-Management-System-main/Hospital-Management-System-main/src/modules/finance.py:30-57 | starting from no rows for the patient, saving a1..an leaves the balance a1 + ... + an |
| `Finances.BillingTotal` | Hospital-Management-System-main/Hospital-Management-System-main/src/modules/finance.py:128-133 | rows of other patients, and rows that are neither appointment nor medication payments, never count: a patient without such rows has total 0 |
| `Finances.PendingPayments` | Hospital-Management-System-main/Hospital-Management-System-main/src/modules/finance.py:128-134 | lists a patient iff the patient's appointment and medication payments sum to a negative amount, with that sum |
| `Finances.DepositKeepsPending` | Hospital-Management-System-main/Hospital-Management-System-main/src/modules/finance.py:128-133 | a deposit is not a billing row and leaves pending payments unchanged |
| `Finances.AppointmentPaymentPending` | Hospital-Management-System-main/Hospital-Management-System-main/src/modules/finance.py:73-74 | after an appointment payment the patient is pending iff the earlier billing total was below the fee, and then owes it less the fee |
| `Finances.Total` | Hospital-Management-System-main/Hospital-Management-System-main/src/modules/finance.py:153-161 | the sum of a table is 0 when every amount is 0 (in particular when the table is empty), and non-negative when every amount is |
| `Finances.TotalAppend` | Hospital-Management-System-main/Hospital-Management-System-main/src/modules/finance.py:153-161 | appending a row adds its amount to the table's sum |
| `Finances.Profit` | Hospital-Management-System-main/Hospital-Management-System-main/src/modules/finance.py:153-163 | with no costs the profit is the revenue, with no revenue it is minus the costs (an empty sum reads as 0), and non-negative costs never raise it above the revenue |
| `Finances.ProfitAfterTracking` | Hospital-Management-System-main/Hospital-Management-System-main/src/modules/finance.py:153-163 | tracked revenue raises the profit by its amount; a tracked cost lowers it by its amount |
| `Finances.Finance.SaveTransaction` | Hospital-Management-System-main/Hospital-Management-System-main/src/modules/finance.py:30-36 | appends one row whose balance is the balance before the call plus the amount |
| `Finances.Finance.Deposit` | Hospital-Management-System-main/Hospital-Management-System-main/src/modules/finance.py:64-68 | saves a 'Deposit' row iff the amount is positive; otherwise the ledger is unchanged |
| `Finances.Finance.PayForAppointment` | Hospital-Management-System-main/Hospital-Management-System-main/src/modules/finance.py:73-74 | always saves an 'Appointment Payment' row of -200 |
| `Finances.Finance.PayForMedication` | Hospital-Management-System-main/Hospital-Management-System-main/src/modules/finance.py:79-84 | charges iff quantity and price are both positive, saving -(quantity * price) tagged with the medication; otherwise the ledger is unchanged |
| `Finances.Finance.TrackRevenue` | Hospital-Management-System-main/Hospital-Management-System-main/src/modules/finance.py:94-97 | appends exactly one Revenue row |
| `Finances.Finance.TrackCosts` | Hospital-Management-System-main/Hospital-Management-System-main/src/modules/finance.py:111-114 | appends exactly one Costs row |
| `Pharmacies.Restocked` | Hospital-Management-System-main/Hospital-Management-System-main/src/modules/pharmacy.py:49-62 | a known medication gains the stock at its old price; an unknown one is inserted with that stock at price 0; every other medication is unchanged |
| `Pharmacies.Dispensed` | Hospital-Management-System-main/Hospital-Management-System-main/src/modules/pharmacy.py:111-115 | the medication's stock drops by the quantity, its price is kept, and every other medication is unchanged |
| `Pharmacies.RestockThenDispense` | Hospital-Management-System-main/Hospital-Management-System-main/src/modules/pharmacy.py:53-57 | for a known medication, dispensing what was just restocked gives back the inventory |
| `Pharmacies.DispensedStockBounds` | Hospital-Management-System-main/Hospital-Management-System-main/src/modules/pharmacy.py:108-115 | a positive quantity that passes the check leaves a stock in [0, old stock); a quantity of 0 or less leaves at least the old stock |
| `Pharmacies.Pharmacy.constructor` | Hospital-Management-System-main/Hospital-Management-System-main/src/modules/pharmacy.py:7-11 | the mirror starts equal to the PharmacyInventory table, and the pharmacy's Finance shares the storage |
| `Pharmacies.Pharmacy.LoadInventory` | Hospital-Management-System-main/Hospital-Management-System-main/src/modules/pharmacy.py:26-35 | the loop builds a map equal to the PharmacyInventory table |
| `Pharmacies.Pharmacy.UpdateInventory` | Hospital-Management-System-main/Hospital-Management-System-main/src/modules/pharmacy.py:49-65 | the table becomes `Restocked`, and the mirror equals the table afterwards |
| `Pharmacies.Pharmacy.DispenseMedication` | Hospital-Management-System-main/Hospital-Management-System-main/src/modules/pharmacy.py:108-127 | when the mirror lacks the medication or its stock is below the quantity, nothing changes; otherwise the table becomes `Dispensed`, the mirror equals it, and the patient is charged -(quantity * price) exactly when quantity and price are positive |
| `Appointments.AsMap` | Hospital-Management-System-main/Hospital-Management-System-main/src/modules/appointment.py:60-70 | the loaded map's keys are exactly the stored ids |
| `Appointments.AsMapAt` | Hospital-Management-System-main/Hospital-Management-System-main/src/modules/appointment.py:60-70 | with increasing ids, every row loads under its id with all seven of its fields |
| `Appointments.DoubleBooking` | Hospital-Management-System-main/Hospital-Management-System-main/src/modules/appointment.py:36-39 | booking the same appointment twice yields two records under two ids |
| `Appointments.BookAppointment` | Hospital-Management-System-main/Hospital-Management-System-main/src/modules/appointment.py:36-39 | appends exactly one row with the appointment's seven fields under the next identity id; the id invariant is kept |
| `Appointments.LoadAppointments` | Hospital-Management-System-main/Hospital-Management-System-main/src/modules/appointment.py:58-75 | the loop returns `AsMap` of the stored rows |
| `Appointments.SaveAppointments` | Hospital-Management-System-main/Hospital-Management-System-main/src/modules/appointment.py:88-96 | the table afterwards holds one row per entry of the map, in iteration order, with that entry's fields under fresh consecutive ids; no earlier row remains, and when the map's keys are old ids none is reused |
| `Appointments.Without` | Hospital-Management-System-main/Hospital-Management-System-main/src/modules/user.py:624-627 | no row keeps the cancelled id, every other row survives, nothing new appears, and increasing ids stay increasing |
| `Appointments.WithoutAbsent` | Hospital-Management-System-main/Hospital-Management-System-main/src/modules/user.py:624-627 | cancelling an id no row has, such as a negative one, leaves the table unchanged |
| `Appointments.SurvivorsLoad` | Hospital-Management-System-main/Hospital-Management-System-main/src/modules/user.py:624-627 | every appointment that loads after a cancellation loaded the same way before |
| `Appointments.OthersStillLoad` | Hospital-Management-System-main/Hospital-Management-System-main/src/modules/user.py:624-627 | every appointment other than the cancelled one still loads |
| `Appointments.CancelledNotLoaded` | Hospital-Management-System-main/Hospital-Management-System-main/src/modules/user.py:624-627 | the loaded map after a cancellation is the one before less that id |
| `Appointments.BookThenCancel` | Hospital-Management-System-main/Hospital-Management-System-main/src/modules/appointment.py:36-39 | booking and then cancelling that booking gives back the loaded appointments |
| `Users.Lower` | Hospital-Management-System-main/Hospital-Management-System-main/src/modules/user.py:25 | lower-casing keeps the length and maps each character separately |
| `Users.LowerIdempotent` | Hospital-Management-System-main/Hospital-Management-System-main/src/modules/user.py:25 | lower-casing twice is lower-casing once |
| `Users.Matches` | Hospital-Management-System-main/Hospital-Management-System-main/src/modules/user.py:25 | there are never more options than nationalities |
| `Users.MatchesMembers` | Hospital-Management-System-main/Hospital-Management-System-main/src/modules/user.py:25 | the options are exactly the nationalities that start with the text ignoring case |
| `Users.MatchesAppend` | Hospital-Management-System-main/Hospital-Management-System-main/src/modules/user.py:25 | the options of a concatenated list are the options of its first part followed by those of its second part, so list order and repeats are kept |
| `Users.MatchesIgnoresCase` | Hospital-Management-System-main/Hospital-Management-System-main/src/modules/user.py:25 | the options do not depend on the case of the typed text |
| `Users.Complete` | Hospital-Management-System-main/Hospital-Management-System-main/src/modules/user.py:24-29 | None iff the state is past the last option; otherwise a nationality that matches the text |
| `Users.EveryMatchOffered` | Hospital-Management-System-main/Hospital-Management-System-main/src/modules/user.py:24-29 | every matching nationality is returned for some state |
| `Users.CompleteAt` | Hospital-Management-System-main/Hospital-Management-System-main/src/modules/user.py:24-29 | a matching nationality at position j is returned for the state that equals the number of matches before position j |
| `Users.OptionAt` | Hospital-Management-System-main/Hospital-Management-System-main/src/modules/user.py:25-27 | option k is the matching nationality at some position j with exactly k matches before it |
| `Users.CompleteInOrder` | Hospital-Management-System-main/Hospital-Management-System-main/src/modules/user.py:24-29 | whatever is returned for a state is the matching nationality with exactly that many matches before it in list order |
| `Users.CompleteIgnoresCase` | Hospital-Management-System-main/Hospital-Management-System-main/src/modules/user.py:24-29 | completion does not depend on the case of the typed text |
| `Users.Digits` | Hospital-Management-System-main/Hospital-Management-System-main/src/modules/user.py:139 | the result holds only digits, and an all-digit string is kept as it is |
| `Users.DigitsKeepsCount` | Hospital-Management-System-main/Hospital-Management-System-main/src/modules/user.py:139 | each digit occurs in the result as often as in the input |
| `Users.DigitsAppend` | Hospital-Management-System-main/Hospital-Management-System-main/src/modules/user.py:139 | filtering a concatenation gives the digits of the first part followed by those of the second, so the digits keep their input order |
| `Users.DigitsSingle` | Hospital-Management-System-main/Hospital-Management-System-main/src/modules/user.py:139 | a single character is kept iff it is a digit |
| `Users.CheckPhone` | Hospital-Management-System-main/Hospital-Management-System-main/src/modules/user.py:138-142 | a missing or empty number is stored as given; another is rejected iff its digits are not exactly 11, and otherwise stored as exactly `Digits` of it, its own digits in order |
| `Users.CheckPhoneIdempotent` | Hospital-Management-System-main/Hospital-Management-System-main/src/modules/user.py:138-142 | a stored number passes the check again unchanged |
| `Users.Login` | Hospital-Management-System-main/Hospital-Management-System-main/src/modules/user.py:110-117 | login succeeds iff some user row has exactly that username and that password |
| `Users.LoginAfterInsert` | Hospital-Management-System-main/Hospital-Management-System-main/src/modules/user.py:110-117 | login succeeds for an inserted row's credentials, and inserting a row leaves every other user's login unchanged |
| `Users.User.Signup` | Hospital-Management-System-main/Hospital-Management-System-main/src/modules/user.py:133-150 | succeeds iff the username is new and the phone check passes; then exactly one row with the normalised number is inserted and login succeeds; otherwise Users is unchanged |
| `Users.Appended` | Hospital-Management-System-main/Hospital-Management-System-main/src/modules/user.py:504-506 | the patient's list gains the item at its end, starting from an empty list if absent; other patients' lists are unchanged |
| `Users.AppendedInOrder` | Hospital-Management-System-main/Hospital-Management-System-main/src/modules/user.py:504-506 | two appends to one patient keep their order |
| `Users.AppendedCommute` | Hospital-Management-System-main/Hospital-Management-System-main/src/modules/user.py:504-506 | appends to two different patients can be done in either order |
| `Users.Doctor.WritePrescriptions` | Hospital-Management-System-main/Hospital-Management-System-main/src/modules/user.py:502-507 | the prescriptions book becomes `Appended` with the prescription |
| `Users.Doctor.AddPatientRecord` | Hospital-Management-System-main/Hospital-Management-System-main/src/modules/user.py:533-538 | the records book becomes `Appended` with the record |
| `Users.DoctorView` | Hospital-Management-System-main/Hospital-Management-System-main/src/modules/user.py:496-500 | lists an appointment iff its doctor is the doctor, with its loaded fields |
| `Users.PatientView` | Hospital-Management-System-main/Hospital-Management-System-main/src/modules/user.py:591-595 | lists an appointment iff its patient is the patient, with its loaded fields |
| `Users.Doctor.ViewAppointments` | Hospital-Management-System-main/Hospital-Management-System-main/src/modules/user.py:496-500 | returns the doctor's view of the loaded appointments |
| `Users.Patient.ViewAppointments` | Hospital-Management-System-main/Hospital-Management-System-main/src/modules/user.py:591-595 | returns the patient's view of the loaded appointments |
| `Users.BookedIsViewed` | Hospital-Management-System-main/Hospital-Management-System-main/src/modules/user.py:591-595 | a booked appointment shows under its new id in both its patient's and its doctor's views |
| `Users.BookThenCancelEmptiesView` | Hospital-Management-System-main/Hospital-Management-System-main/src/modules/user.py:624-627 | for a patient with no appointments, booking and then cancelling leaves the patient's view empty |
| `Users.Patient.RequestAppointments` | Hospital-Management-System-main/Hospital-Management-System-main/src/modules/user.py:597-600 | books one non-emergency appointment with this patient as patient, then charges this same patient -200 |
| `Users.Receptionist.BookAppointments` | Hospital-Management-System-main/Hospital-Management-System-main/src/modules/user.py:616-618 | books one non-emergency appointment with the given fields and charges nothing |
| `Users.Receptionist.CancelAppointments` | Hospital-Management-System-main/Hospital-Management-System-main/src/modules/user.py:620-627 | for any integer id, the appointments become `Without` the id, and Rooms is untouched |
| `Users.Admin.RemoveUser` | Hospital-Management-System-main/Hospital-Management-System-main/src/modules/user.py:287-301 | reports success; Users loses exactly that username, present or not |
| `Users.Bump` | Hospital-Management-System-main/Hospital-Management-System-main/src/modules/user.py:400-405 | the key's count becomes its old count, or 0, plus one; every other key keeps its count |
| `Users.WithRoleStep` | Hospital-Management-System-main/Hospital-Management-System-main/src/modules/user.py:398-405 | visiting one more user raises a role's head-count by one iff the user has that role |
| `Users.TallyStep` | Hospital-Management-System-main/Hospital-Management-System-main/src/modules/user.py:398-405 | one more user bumps the counter of the user's role under None and leaves the other counters alone |
| `Users.Admin.AnalyzeWorkforceDistribution` | Hospital-Management-System-main/Hospital-Management-System-main/src/modules/user.py:391-406 | each counter map holds its role's head-count under None, or is empty when the role has no users, so its counts sum to the head-count |

## Left out

- `main.py` (the interactive menu and its role dispatch), `database.py` (the
  connection) and `__init__.py` (re-exports) are not part of this model.
- Connections and failures are not modelled. Every operation assumes a
  working store. The model omits the branches that print a connection or
  SQL error and return early. It also omits that `database()` returns a
  module, and that `user.py` calls `Database()` on a module.
- Printing is not modelled: the `view_*` listings of hospital.py and
  pharmacy.py and all status messages. The doctor and patient
  `view_appointments` are modelled by the map they would print.
- JSON and CSV file I/O is not modelled: `load_nationalities`,
  `load_/save_prescriptions`, `load_/save_patient_records`, `load_users`
  and `save_users`. The model keeps only the dictionary updates they wrap.
  The nationality list is a parameter.
- The readline completer registration is not modelled.
- The pandas and plotting analyses are not modelled: `perform_analysis`,
  `view_financial_insights`, `view_all_users`, `view_users_as_dataframe` and
  `visualize_workforce_distribution`. They are calls into libraries outside
  this model.
- These reports are left out because they only print SQL results, and some
  depend on the wall clock or on non-integer averages: `search`,
  `check_expired_medications`, `analyze_prescription_trends`,
  `check_compliance` and `analyze_supplier_performance`.
- These methods call helpers that are defined nowhere, so they have no
  behaviour to model: `record_treatment_data`, `record_patient_feedback`,
  `record_treatment_outcome` and `provide_feedback`. `Nurse` and its
  hard-coded connection are left out too.
- These are plain inserts into tables that no modelled operation reads, so
  they are left out: hospital.py's `add_prescription` and `add_patient_record`, and
  `update_certifications` / `add_training_program`, which append to
  in-memory lists that are never stored.
- The one-line delegations of `Admin` and `Receptionist` to `Hospital` and
  `Pharmacy` are not modelled separately. They behave as the methods they
  call, which are modelled: `add_user` via signup, the department and room
  methods, the pharmacy methods, and `allocate_room` / `release_room`.
- There is no concurrency or atomicity: operations run one after another.
- Money is an unbounded integer amount in EGP. SQL numeric precision is not
  modelled.
- `Finances.Balance`: the source takes the row with the latest
  `TransactionDate`. The model takes the last appended row, so ties between
  equal timestamps are not modelled.
- `Users.Lower`, `Users.Digits`: the model lower-cases ASCII letters only
  and keeps ASCII digits only. Python's `str.lower` and `str.isdigit` also
  cover other Unicode letters and digits.
- `Users.Login` and every other SQL comparison of strings are exact in the
  model. A case-insensitive SQL Server collation would make them ignore
  case. This covers usernames (login, signup and `add_user`), department
  names (`add_department`, `remove_department`), medication names
  (`add_medication`, `update_inventory`, the dispensing UPDATE) and room
  types (`allocate_room`). It also covers patient names in `get_balance`
  and in the pending-payments GROUP BY, and transaction types in the
  pending-payments filter.
- `Hospitals.Hospital.ScheduleAppointment`: its INSERT names no
  IsEmergency column. The model assumes the column defaults to false.
- `Appointments.SaveAppointments`: the model builds the new rows and then
  stores them at once. The source deletes first and inserts row by row, so
  the empty table in between is not observable in the model. The dict's
  iteration order is a ghost `order`, not a concrete order.
- `Users.Admin.AnalyzeWorkforceDistribution`: the model does not fix the
  order in which users are visited. The result does not depend on it.
