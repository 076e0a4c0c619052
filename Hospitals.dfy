/**
 The hospital registry of hospital.py: departments, rooms, users, medications
 and scheduled appointments. Every operation looks a key up and then inserts,
 updates or refuses; each method changes only the table it names.
 */
module Hospitals {
  import opened Tables

  /** Rooms after `release_room(n)`: an existing room becomes available whatever its state. */
  function Released(rooms: map<int, Room>, n: int): (r: map<int, Room>)
    ensures r.Keys == rooms.Keys
    ensures n in rooms ==> r[n] == Room(rooms[n].roomType, true)
    ensures forall m :: m in rooms && m != n ==> r[m] == rooms[m]
  {
    if n in rooms then rooms[n := Room(rooms[n].roomType, true)] else rooms
  }

  /** A room of type `t` that `allocate_room(t)` may pick. */
  predicate Allocatable(rooms: map<int, Room>, t: string, n: int) {
    n in rooms && rooms[n].roomType == t && rooms[n].available
  }

  /** Releasing twice is releasing once. */
  lemma ReleaseIdempotent(rooms: map<int, Room>, n: int)
    ensures Released(Released(rooms, n), n) == Released(rooms, n)
  {
  }

  /**
   Allocating room `n` and then releasing it gives back the table as it was,
   since an allocatable room was available.
   */
  lemma AllocateThenRelease(rooms: map<int, Room>, t: string, n: int)
    requires Allocatable(rooms, t, n)
    ensures Released(rooms[n := Room(t, false)], n) == rooms
  {
    var after := Released(rooms[n := Room(t, false)], n);
    assert after.Keys == rooms.Keys;
    forall m | m in rooms ensures after[m] == rooms[m] {
    }
  }

  class Hospital {
    var name: string
    /** The departments read at start-up; later additions do not refresh it. */
    var departments: map<string, string>
    const db: Storage

    /** `Hospital(name)`: remembers the name and reads the Departments table. */
    constructor (name: string, db: Storage)
      ensures this.name == name && this.db == db
      ensures departments == db.departments
    {
      this.name := name;
      this.db := db;
      departments := db.departments;
    }

    /** Inserts `(name, description)` unless the department already exists. */
    method AddDepartment(name: string, description: string := "") returns (added: bool)
      modifies db`departments
      ensures added <==> name !in old(db.departments)
      ensures db.departments == if added then old(db.departments)[name := description] else old(db.departments)
    {
      added := name !in db.departments;
      if added {
        db.departments := db.departments[name := description];
      }
    }

    /** Deletes the named department when it exists; otherwise nothing changes. */
    method RemoveDepartment(name: string) returns (removed: bool)
      modifies db`departments
      ensures removed <==> name in old(db.departments)
      ensures db.departments == old(db.departments) - {name}
    {
      removed := name in db.departments;
      if removed {
        db.departments := db.departments - {name};
      }
    }

    /** Inserts an available room unless the number is taken. */
    method AddRoom(number: int, roomType: string) returns (added: bool)
      modifies db`rooms
      ensures added <==> number !in old(db.rooms)
      ensures db.rooms == if added then old(db.rooms)[number := Room(roomType, true)] else old(db.rooms)
    {
      added := number !in db.rooms;
      if added {
        db.rooms := db.rooms[number := Room(roomType, true)];
      }
    }

    /**
     Picks some available room of the requested type (the query has no ORDER BY,
     so any match may come first) and marks it occupied; None when there is none.
     */
    method AllocateRoom(roomType: string) returns (room: Option<int>)
      modifies db`rooms
      ensures room.None? <==> (forall n :: n in old(db.rooms) ==> !Allocatable(old(db.rooms), roomType, n))
      ensures room.None? ==> db.rooms == old(db.rooms)
      ensures room.Some? ==> (Allocatable(old(db.rooms), roomType, room.value)
                              && db.rooms == old(db.rooms)[room.value := Room(roomType, false)])
    {
      if n :| n in db.rooms && Allocatable(db.rooms, roomType, n) {
        db.rooms := db.rooms[n := Room(roomType, false)];
        room := Some(n);
      } else {
        room := None;
      }
    }

    /** Marks an existing room available; reports whether the number exists. */
    method ReleaseRoom(number: int) returns (found: bool)
      modifies db`rooms
      ensures found <==> number in old(db.rooms)
      ensures db.rooms == Released(old(db.rooms), number)
    {
      found := number in db.rooms;
      if found {
        db.rooms := db.rooms[number := Room(db.rooms[number].roomType, true)];
      }
    }

    /** Inserts a user row unless the username exists; the phone number is stored as given. */
    method AddUser(username: string, password: string, role: string,
                   phoneNumber: Option<string> := None, age: Option<int> := None,
                   gender: Option<string> := None, salary: Option<int> := None,
                   profession: Option<string> := None, department: Option<string> := None,
                   chronicDisease: Option<string> := None, nationality: Option<string> := None)
      returns (added: bool)
      modifies db`users
      ensures added <==> username !in old(db.users)
      ensures db.users == if added
        then old(db.users)[username := UserRow(password, role, phoneNumber, age, gender, salary,
                                               profession, department, chronicDisease, nationality)]
        else old(db.users)
    {
      added := username !in db.users;
      if added {
        db.users := db.users[username := UserRow(password, role, phoneNumber, age, gender, salary,
                                                 profession, department, chronicDisease, nationality)];
      }
    }

    /**
     Inserts an appointment row. The statement names no IsEmergency column, so
     the row takes the column's default, modelled as false.
     */
    method ScheduleAppointment(doctor: string, patient: string, date: string, time: string,
                               room: int, department: string)
      requires db.Valid()
      modifies db`appointments, db`nextAppointmentId
      ensures db.Valid()
      ensures db.nextAppointmentId == old(db.nextAppointmentId) + 1
      ensures db.appointments == old(db.appointments)
        + [AppointmentRow(old(db.nextAppointmentId), Appointment(doctor, patient, date, time, room, department))]
    {
      db.appointments := db.appointments
        + [AppointmentRow(db.nextAppointmentId, Appointment(doctor, patient, date, time, room, department))];
      db.nextAppointmentId := db.nextAppointmentId + 1;
    }

    /** Inserts a medication with its stock and price unless the name exists. */
    method AddMedication(medication: string, stock: int, price: int) returns (added: bool)
      modifies db`inventory
      ensures added <==> medication !in old(db.inventory)
      ensures db.inventory == if added then old(db.inventory)[medication := Item(stock, price)] else old(db.inventory)
    {
      added := medication !in db.inventory;
      if added {
        db.inventory := db.inventory[medication := Item(stock, price)];
      }
    }

    /**
     Appends a ledger row with a balance the caller supplies. Unlike
     `save_transaction`, nothing ties that balance to the earlier rows.
     */
    method AddFinancialTransaction(patient: string, kind: string, amount: int, balance: int)
      modifies db`ledger
      ensures db.ledger == old(db.ledger) + [Entry(patient, kind, amount, balance)]
    {
      db.ledger := db.ledger + [Entry(patient, kind, amount, balance)];
    }
  }
}
