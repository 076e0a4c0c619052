/**
 The persistent state of the hospital system: the tables of its SQL database
 (Rooms, Departments, Users, PharmacyInventory, FinancialTransactions, Revenue,
 Costs, Appointments) and the two JSON files the doctor role keeps
 (prescriptions and patient records). Every component holds a reference to one
 `Storage` object and changes only the fields its operation names.
 */
module Tables {

  datatype Option<+T> = None | Some(value: T)

  /** A row of Rooms, keyed by RoomNumber. */
  datatype Room = Room(roomType: string, available: bool)

  /** A row of Users, keyed by Username. Nullable columns are options. */
  datatype UserRow = UserRow(
    password: string,
    role: string,
    phoneNumber: Option<string>,
    age: Option<int>,
    gender: Option<string>,
    salary: Option<int>,
    profession: Option<string>,
    department: Option<string>,
    chronicDisease: Option<string>,
    nationality: Option<string>)

  /** A row of PharmacyInventory, keyed by MedicationName. Money is in EGP. */
  datatype Item = Item(stock: int, price: int)

  /** A row of FinancialTransactions: `balance` is the running balance the row records. */
  datatype Entry = Entry(patient: string, kind: string, amount: int, balance: int)

  /** A row of Revenue (source, amount) or of Costs (category, amount). */
  datatype Posting = Posting(tag: string, amount: int)

  /**
   The seven fields of an appointment, as the Appointment object carries them
   and as `load_appointments` returns them per id. `isEmergency` defaults to false.
   */
  datatype Appointment = Appointment(
    doctor: string,
    patient: string,
    date: string,
    time: string,
    room: int,
    department: string,
    isEmergency: bool := false)

  /** A row of Appointments: the generated AppointmentID and the details. */
  datatype AppointmentRow = AppointmentRow(id: nat, appt: Appointment)

  /** The ids of a sequence of appointment rows strictly increase. */
  ghost predicate IdsIncreasing(rows: seq<AppointmentRow>) {
    forall i, j :: 0 <= i < j < |rows| ==> rows[i].id < rows[j].id
  }

  class Storage {
    var rooms: map<int, Room>
    var departments: map<string, string>
    var users: map<string, UserRow>
    var inventory: map<string, Item>
    var ledger: seq<Entry>
    var revenue: seq<Posting>
    var costs: seq<Posting>
    /** Appointments in storage order, with the identity counter that numbers new rows. */
    var appointments: seq<AppointmentRow>
    var nextAppointmentId: nat
    /** The contents of the prescriptions and patient-records JSON files. */
    var prescriptions: map<string, seq<string>>
    var patientRecords: map<string, seq<string>>

    /**
     The identity column: ids increase in storage order and every id is below
     the counter, so a fresh id never collides with a stored one.
     */
    ghost predicate Valid()
      reads this
    {
      && IdsIncreasing(appointments)
      && (forall i :: 0 <= i < |appointments| ==> appointments[i].id < nextAppointmentId)
    }

    /** An empty database; the identity counter starts at 1. */
    constructor ()
      ensures Valid()
      ensures rooms == map[] && departments == map[] && users == map[] && inventory == map[]
      ensures ledger == [] && revenue == [] && costs == []
      ensures appointments == [] && nextAppointmentId == 1
      ensures prescriptions == map[] && patientRecords == map[]
    {
      rooms, departments, users, inventory := map[], map[], map[], map[];
      ledger, revenue, costs := [], [], [];
      appointments, nextAppointmentId := [], 1;
      prescriptions, patientRecords := map[], map[];
    }
  }
}
