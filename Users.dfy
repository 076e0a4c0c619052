/**
 The role classes of user.py: nationality autocompletion, signup with phone
 normalisation, login, the doctor's prescription and record books, the doctor's
 and patient's appointment views, the patient's appointment request, the
 receptionist's booking and cancellation, and the admin's head-counts.
 */
module Users {
  import opened Tables
  import opened Finances
  import opened Appointments

  // ---------------------------------------------------------------------------
  // Autocompletion

  /** Lower-cases ASCII letters and leaves every other character alone. */
  function LowerChar(c: char): char {
    if 'A' <= c <= 'Z' then (c as int + 32) as char else c
  }

  function Lower(s: string): (r: string)
    ensures |r| == |s| && forall i :: 0 <= i < |s| ==> r[i] == LowerChar(s[i])
  {
    if s == [] then [] else [LowerChar(s[0])] + Lower(s[1..])
  }

  lemma {:induction false} LowerIdempotent(s: string)
    ensures Lower(Lower(s)) == Lower(s)
  {
    if s != [] {
      LowerIdempotent(s[1..]);
    }
  }

  /** Whether the nationality starts with the typed text, ignoring case. */
  predicate MatchesText(nationality: string, text: string) {
    Lower(text) <= Lower(nationality)
  }

  /** The nationalities, in list order, that start with `text` ignoring case. */
  function Matches(nationalities: seq<string>, text: string): (options: seq<string>)
    ensures |options| <= |nationalities|
  {
    if nationalities == [] then []
    else
      var rest := Matches(nationalities[1..], text);
      if MatchesText(nationalities[0], text) then [nationalities[0]] + rest else rest
  }

  /** The options are exactly the nationalities that match. */
  lemma {:induction false} MatchesMembers(nationalities: seq<string>, text: string)
    ensures forall x :: x in Matches(nationalities, text) <==> x in nationalities && MatchesText(x, text)
  {
    if nationalities != [] {
      MatchesMembers(nationalities[1..], text);
      assert nationalities == [nationalities[0]] + nationalities[1..];
    }
  }

  /** `complete(text, state)`: the `state`-th matching nationality, or None past the last one. */
  function Complete(nationalities: seq<string>, text: string, state: nat): (r: Option<string>)
    ensures r.None? <==> state >= |Matches(nationalities, text)|
    ensures r.Some? ==> r.value in nationalities && MatchesText(r.value, text)
  {
    var options := Matches(nationalities, text);
    MatchesMembers(nationalities, text);
    if state < |options| then Some(options[state]) else None
  }

  /** Every matching nationality is offered for some state. */
  lemma EveryMatchOffered(nationalities: seq<string>, text: string, x: string)
    requires x in nationalities && MatchesText(x, text)
    ensures exists state: nat :: Complete(nationalities, text, state) == Some(x)
  {
    var j :| 0 <= j < |nationalities| && nationalities[j] == x;
    CompleteAt(nationalities, text, j);
  }

  /** Matching a concatenation matches each part and keeps list order. */
  lemma {:induction false} MatchesAppend(a: seq<string>, b: seq<string>, text: string)
    ensures Matches(a + b, text) == Matches(a, text) + Matches(b, text)
  {
    if a != [] {
      assert (a + b)[1..] == a[1..] + b;
      MatchesAppend(a[1..], b, text);
    } else {
      assert a + b == b;
    }
  }

  /**
   A matching nationality at position `j` is the option whose index is the
   number of matches before it: `complete` returns it for exactly that state.
   */
  lemma CompleteAt(nationalities: seq<string>, text: string, j: nat)
    requires j < |nationalities| && MatchesText(nationalities[j], text)
    ensures Complete(nationalities, text, |Matches(nationalities[..j], text)|) == Some(nationalities[j])
  {
    var x := nationalities[j];
    assert nationalities == nationalities[..j] + [x] + nationalities[j + 1..];
    MatchesAppend(nationalities[..j] + [x], nationalities[j + 1..], text);
    MatchesAppend(nationalities[..j], [x], text);
    assert Matches([x], text) == [x] by {
      assert [x][1..] == [];
    }
  }

  /** The options of a list with a head are the head's, if it matches, followed by the tail's. */
  lemma MatchesCons(x: string, rest: seq<string>, text: string)
    ensures Matches([x] + rest, text) == (if MatchesText(x, text) then [x] else []) + Matches(rest, text)
  {
    assert ([x] + rest)[1..] == rest;
  }

  lemma PrefixOfTail(s: seq<string>, j: nat)
    requires j < |s|
    ensures s[..j + 1] == [s[0]] + s[1..][..j]
  {
  }

  /** The matches before position `i + 1` are the tail's matches before `i`, plus the head's. */
  lemma PrefixShift(nationalities: seq<string>, text: string, i: nat)
    requires i < |nationalities| - 1
    ensures |Matches(nationalities[..i + 1], text)|
            == |Matches(nationalities[1..][..i], text)| + (if MatchesText(nationalities[0], text) then 1 else 0)
  {
    PrefixOfTail(nationalities, i);
    MatchesCons(nationalities[0], nationalities[1..][..i], text);
  }

  /** Option `k` of the tail is option `k` plus the head's share of the whole list. */
  lemma IndexShift(nationalities: seq<string>, text: string, k: nat)
    requires |nationalities| > 0 && k < |Matches(nationalities[1..], text)|
    ensures Matches(nationalities, text)[k + (if MatchesText(nationalities[0], text) then 1 else 0)]
            == Matches(nationalities[1..], text)[k]
  {
    var rest := Matches(nationalities[1..], text);
    if MatchesText(nationalities[0], text) {
      assert Matches(nationalities, text) == [nationalities[0]] + rest;
    } else {
      assert Matches(nationalities, text) == rest;
    }
  }

  /**
   Option `k` is the nationality at some position `j` that matches and has
   exactly `k` matches before it.
   */
  lemma {:induction false} OptionAt(nationalities: seq<string>, text: string, k: nat) returns (j: nat)
    requires k < |Matches(nationalities, text)|
    ensures j < |nationalities| && MatchesText(nationalities[j], text)
    ensures |Matches(nationalities[..j], text)| == k
    ensures Matches(nationalities, text)[k] == nationalities[j]
  {
    var first := MatchesText(nationalities[0], text);
    if first && k == 0 {
      j := 0;
      assert nationalities[..0] == [];
    } else {
      var i := OptionAt(nationalities[1..], text, if first then k - 1 else k);
      PrefixShift(nationalities, text, i);
      IndexShift(nationalities, text, if first then k - 1 else k);
      j := i + 1;
    }
  }

  /** Whatever `complete` returns is the matching nationality with exactly `state` matches before it. */
  lemma CompleteInOrder(nationalities: seq<string>, text: string, state: nat)
    requires Complete(nationalities, text, state).Some?
    ensures exists j :: 0 <= j < |nationalities| && MatchesText(nationalities[j], text)
                        && |Matches(nationalities[..j], text)| == state
                        && Complete(nationalities, text, state).value == nationalities[j]
  {
    var j := OptionAt(nationalities, text, state);
    assert 0 <= j < |nationalities| && MatchesText(nationalities[j], text)
           && |Matches(nationalities[..j], text)| == state
           && Complete(nationalities, text, state).value == nationalities[j];
  }

  lemma {:induction false} MatchesIgnoresCase(nationalities: seq<string>, text: string)
    ensures Matches(nationalities, Lower(text)) == Matches(nationalities, text)
  {
    LowerIdempotent(text);
    if nationalities != [] {
      MatchesIgnoresCase(nationalities[1..], text);
    }
  }

  /** The case of the typed text does not matter. */
  lemma CompleteIgnoresCase(nationalities: seq<string>, text: string, state: nat)
    ensures Complete(nationalities, Lower(text), state) == Complete(nationalities, text, state)
  {
    MatchesIgnoresCase(nationalities, text);
  }

  // ---------------------------------------------------------------------------
  // Phone numbers

  predicate IsDigit(c: char) {
    '0' <= c <= '9'
  }

  /** The digit characters of `s`, in order: every digit is kept and nothing else. */
  function Digits(s: string): (r: string)
    ensures forall i :: 0 <= i < |r| ==> IsDigit(r[i])
    ensures (forall i :: 0 <= i < |s| ==> IsDigit(s[i])) ==> r == s
  {
    if s == [] then []
    else
      var front := s[..|s| - 1];
      var last := s[|s| - 1];
      Digits(front) + (if IsDigit(last) then [last] else [])
  }

  /** Filtering a concatenation filters each part and keeps them in order. */
  lemma {:induction false} DigitsAppend(a: string, b: string)
    ensures Digits(a + b) == Digits(a) + Digits(b)
  {
    if b != [] {
      var front := b[..|b| - 1];
      assert (a + b)[..|a + b| - 1] == a + front;
      DigitsAppend(a, front);
    } else {
      assert a + b == a;
    }
  }

  /** A single character is kept exactly when it is a digit. */
  lemma DigitsSingle(c: char)
    ensures Digits([c]) == if IsDigit(c) then [c] else []
  {
    assert [c][..0] == [];
  }

  /** Each digit occurs in `Digits(s)` exactly as often as in `s`. */
  lemma {:induction false} DigitsKeepsCount(s: string, c: char)
    requires IsDigit(c)
    ensures multiset(Digits(s))[c] == multiset(s)[c]
  {
    if s != [] {
      var front := s[..|s| - 1];
      assert s == front + [s[|s| - 1]];
      DigitsKeepsCount(front, c);
    }
  }

  /** The outcome of signup's phone check: refused, or the phone value to store. */
  datatype PhoneCheck = Rejected | Stored(phone: Option<string>)

  /**
   A missing or empty phone number is stored as it is; any other is reduced to
   its digits and accepted only when exactly 11 remain.
   */
  function CheckPhone(phone: Option<string>): (r: PhoneCheck)
    ensures r.Rejected? <==> phone.Some? && phone.value != "" && |Digits(phone.value)| != 11
    ensures (phone.None? || phone == Some("")) ==> r == Stored(phone)
    ensures r.Stored? && phone.Some? && phone.value != "" ==>
              r.phone.Some? && |r.phone.value| == 11 && forall i :: 0 <= i < 11 ==> IsDigit(r.phone.value[i])
    ensures r.Stored? && phone.Some? && phone.value != "" ==> r.phone == Some(Digits(phone.value))
  {
    match phone
    case None => Stored(None)
    case Some(s) =>
      if s == "" then Stored(phone)
      else
        var d := Digits(s);
        if |d| == 11 then Stored(Some(d)) else Rejected
  }

  /** A stored number passes the check again unchanged. */
  lemma CheckPhoneIdempotent(phone: Option<string>)
    requires CheckPhone(phone).Stored?
    ensures CheckPhone(CheckPhone(phone).phone) == CheckPhone(phone)
  {
  }

  // ---------------------------------------------------------------------------
  // Login

  /** `login(u, pw)`: some user row has exactly that username and password. */
  predicate Login(users: map<string, UserRow>, username: string, password: string): (ok: bool)
    ensures ok <==> exists u :: u in users && u == username && users[u].password == password
  {
    username in users && users[username].password == password
  }

  /** Inserting a row makes its credentials valid and leaves everyone else's as they were. */
  lemma LoginAfterInsert(users: map<string, UserRow>, username: string, row: UserRow,
                         other: string, password: string)
    ensures Login(users[username := row], username, row.password)
    ensures other != username ==> (Login(users[username := row], other, password) <==> Login(users, other, password))
  {
  }

  // ---------------------------------------------------------------------------
  // Per-patient books

  /** The book after appending `item` to `patient`'s list, starting an empty list if absent. */
  function Appended(book: map<string, seq<string>>, patient: string, item: string): (r: map<string, seq<string>>)
    ensures r.Keys == book.Keys + {patient}
    ensures r[patient] == (if patient in book then book[patient] else []) + [item]
    ensures forall q :: q in book && q != patient ==> r[q] == book[q]
  {
    var list := if patient in book then book[patient] else [];
    book[patient := list + [item]]
  }

  /** Two appends to one patient's list keep their order, after whatever it held. */
  lemma AppendedInOrder(book: map<string, seq<string>>, patient: string, first: string, second: string)
    ensures Appended(Appended(book, patient, first), patient, second)[patient]
            == (if patient in book then book[patient] else []) + [first, second]
  {
  }

  /** Appends to two different patients' lists do not interfere: their order does not matter. */
  lemma AppendedCommute(book: map<string, seq<string>>, p: string, x: string, q: string, y: string)
    requires p != q
    ensures Appended(Appended(book, p, x), q, y) == Appended(Appended(book, q, y), p, x)
  {
    var left := Appended(Appended(book, p, x), q, y);
    var right := Appended(Appended(book, q, y), p, x);
    assert left.Keys == right.Keys;
    forall k | k in left ensures left[k] == right[k] {
    }
  }

  // ---------------------------------------------------------------------------
  // Appointment views

  /** The appointments a doctor's view lists: those whose doctor field is the doctor's name. */
  function DoctorView(appts: map<nat, Appointment>, doctor: string): (v: map<nat, Appointment>)
    ensures forall k :: k in v <==> k in appts && appts[k].doctor == doctor
    ensures forall k :: k in v ==> v[k] == appts[k]
  {
    map k | k in appts && appts[k].doctor == doctor :: appts[k]
  }

  /** The appointments a patient's view lists: those whose patient field is the patient's name. */
  function PatientView(appts: map<nat, Appointment>, patient: string): (v: map<nat, Appointment>)
    ensures forall k :: k in v <==> k in appts && appts[k].patient == patient
    ensures forall k :: k in v ==> v[k] == appts[k]
  {
    map k | k in appts && appts[k].patient == patient :: appts[k]
  }

  /** A booked appointment shows in its patient's and its doctor's views under its new id. */
  lemma BookedIsViewed(rows: seq<AppointmentRow>, next: nat, a: Appointment)
    requires IdsIncreasing(rows)
    requires forall i :: 0 <= i < |rows| ==> rows[i].id < next
    ensures var after := AsMap(Booked(rows, next, a));
            next in PatientView(after, a.patient) && PatientView(after, a.patient)[next] == a
            && next in DoctorView(after, a.doctor) && DoctorView(after, a.doctor)[next] == a
  {
  }

  /**
   Booking for a patient with no appointments and then cancelling that booking
   leaves the patient's view empty again.
   */
  lemma BookThenCancelEmptiesView(rows: seq<AppointmentRow>, next: nat, a: Appointment)
    requires IdsIncreasing(rows)
    requires forall i :: 0 <= i < |rows| ==> rows[i].id < next
    requires PatientView(AsMap(rows), a.patient) == map[]
    ensures PatientView(AsMap(Without(Booked(rows, next, a), next)), a.patient) == map[]
  {
    BookThenCancel(rows, next, a);
  }

  // ---------------------------------------------------------------------------
  // Workforce distribution

  /**
   The specialization and the shift key of a user: `load_users` builds rows
   without 'specialization' or 'shift' entries, so `details.get(...)` gives None.
   */
  function SpecializationOf(row: UserRow): Option<string> {
    None
  }

  function ShiftOf(row: UserRow): Option<string> {
    None
  }

  /** The usernames among `names` whose role is `role`. */
  function WithRole(users: map<string, UserRow>, names: set<string>, role: string): set<string> {
    set u | u in names && u in users && users[u].role == role
  }

  /** The head-count of a role. */
  function RoleCount(users: map<string, UserRow>, role: string): nat {
    |WithRole(users, users.Keys, role)|
  }

  /** A counter map in which every one of `n` users fell under the key None. */
  function AllUnderNone(n: nat): map<Option<string>, nat> {
    if n == 0 then map[] else map[None := n]
  }

  /** The nested counters of `analyze_workforce_distribution`. */
  datatype Distribution = Distribution(
    doctorSpecialization: map<Option<string>, nat>,
    doctorShift: map<Option<string>, nat>,
    nurseShift: map<Option<string>, nat>,
    adminShift: map<Option<string>, nat>)

  /** `counts.get(key, 0) + 1` stored back under `key`. */
  function Bump(counts: map<Option<string>, nat>, key: Option<string>): (r: map<Option<string>, nat>)
    ensures r.Keys == counts.Keys + {key}
    ensures r[key] == (if key in counts then counts[key] else 0) + 1
    ensures forall k :: k in counts && k != key ==> r[k] == counts[k]
  {
    counts[key := (if key in counts then counts[key] else 0) + 1]
  }

  lemma WithRoleStep(users: map<string, UserRow>, done: set<string>, u: string, role: string)
    requires u in users && u !in done
    ensures |WithRole(users, done + {u}, role)| ==
            |WithRole(users, done, role)| + (if users[u].role == role then 1 else 0)
  {
    if users[u].role == role {
      assert WithRole(users, done + {u}, role) == WithRole(users, done, role) + {u};
    } else {
      assert WithRole(users, done + {u}, role) == WithRole(users, done, role);
    }
  }

  /**
   One more user tallied under None: the counter of the user's role grows by
   one and every other role's counter stays as it was.
   */
  lemma TallyStep(users: map<string, UserRow>, done: set<string>, u: string, role: string,
                  counts: map<Option<string>, nat>)
    requires u in users && u !in done
    requires counts == AllUnderNone(|WithRole(users, done, role)|)
    ensures users[u].role == role ==> Bump(counts, None) == AllUnderNone(|WithRole(users, done + {u}, role)|)
    ensures users[u].role != role ==> counts == AllUnderNone(|WithRole(users, done + {u}, role)|)
  {
    WithRoleStep(users, done, u, role);
  }

  // ---------------------------------------------------------------------------
  // Roles

  class User {
    const db: Storage

    constructor (db: Storage)
      ensures this.db == db
    {
      this.db := db;
    }

    /**
     `signup`: refuses an existing username; refuses a non-empty phone number
     that does not reduce to exactly 11 digits; otherwise inserts one row with
     the normalised number.
     */
    method Signup(username: string, password: string, role: string,
                  phoneNumber: Option<string> := None, age: Option<int> := None,
                  gender: Option<string> := None, salary: Option<int> := None,
                  profession: Option<string> := None, department: Option<string> := None,
                  chronicDisease: Option<string> := None, nationality: Option<string> := None)
      returns (ok: bool)
      modifies db`users
      ensures ok <==> username !in old(db.users) && CheckPhone(phoneNumber).Stored?
      ensures db.users == if ok
        then old(db.users)[username := UserRow(password, role, CheckPhone(phoneNumber).phone, age, gender,
                                               salary, profession, department, chronicDisease, nationality)]
        else old(db.users)
      ensures ok ==> Login(db.users, username, password)
    {
      if username in db.users {
        return false;
      }
      var check := CheckPhone(phoneNumber);
      if check.Rejected? {
        return false;
      }
      db.users := db.users[username := UserRow(password, role, check.phone, age, gender,
                                               salary, profession, department, chronicDisease, nationality)];
      ok := true;
    }
  }

  class Admin {
    const db: Storage

    constructor (db: Storage)
      ensures this.db == db
    {
      this.db := db;
    }

    /** `remove_user`: deletes the user's row, present or not. */
    method RemoveUser(username: string) returns (ok: bool)
      modifies db`users
      ensures ok
      ensures db.users == old(db.users) - {username}
    {
      db.users := db.users - {username};
      ok := true;
    }

    /**
     `analyze_workforce_distribution`: counts doctors by specialization and by
     shift, and nurses and admins by shift. Since every key is None, each
     counter map holds the role's head-count under None, or nothing when the
     role has no users; either way its counts sum to the head-count.
     */
    method AnalyzeWorkforceDistribution() returns (d: Distribution)
      ensures d.doctorSpecialization == AllUnderNone(RoleCount(db.users, "doctor"))
      ensures d.doctorShift == AllUnderNone(RoleCount(db.users, "doctor"))
      ensures d.nurseShift == AllUnderNone(RoleCount(db.users, "nurse"))
      ensures d.adminShift == AllUnderNone(RoleCount(db.users, "admin"))
    {
      var users := db.users;
      d := Distribution(map[], map[], map[], map[]);
      var rest := users.Keys;
      ghost var done: set<string> := {};
      while rest != {}
        invariant rest <= users.Keys && done == users.Keys - rest
        invariant d.doctorSpecialization == AllUnderNone(|WithRole(users, done, "doctor")|)
        invariant d.doctorShift == AllUnderNone(|WithRole(users, done, "doctor")|)
        invariant d.nurseShift == AllUnderNone(|WithRole(users, done, "nurse")|)
        invariant d.adminShift == AllUnderNone(|WithRole(users, done, "admin")|)
        decreases rest
      {
        var u :| u in rest;
        var details := users[u];
        TallyStep(users, done, u, "doctor", d.doctorSpecialization);
        TallyStep(users, done, u, "doctor", d.doctorShift);
        TallyStep(users, done, u, "nurse", d.nurseShift);
        TallyStep(users, done, u, "admin", d.adminShift);
        if details.role == "doctor" {
          d := d.(doctorSpecialization := Bump(d.doctorSpecialization, SpecializationOf(details)),
                  doctorShift := Bump(d.doctorShift, ShiftOf(details)));
        } else if details.role == "nurse" {
          d := d.(nurseShift := Bump(d.nurseShift, ShiftOf(details)));
        } else if details.role == "admin" {
          d := d.(adminShift := Bump(d.adminShift, ShiftOf(details)));
        }
        rest := rest - {u};
        done := done + {u};
      }
      assert done == users.Keys;
    }
  }

  class Doctor {
    const username: string
    const db: Storage

    constructor (username: string, db: Storage)
      ensures this.username == username && this.db == db
    {
      this.username := username;
      this.db := db;
    }

    /** `view_appointments`: the loaded appointments whose doctor is this doctor. */
    method ViewAppointments() returns (v: map<nat, Appointment>)
      ensures v == DoctorView(AsMap(db.appointments), username)
    {
      var appts := LoadAppointments(db);
      v := DoctorView(appts, username);
    }

    /** `write_prescriptions`: appends to the patient's list in the prescriptions file. */
    method WritePrescriptions(patient: string, prescription: string)
      modifies db`prescriptions
      ensures db.prescriptions == Appended(old(db.prescriptions), patient, prescription)
    {
      var prescriptions := db.prescriptions;
      if patient !in prescriptions {
        prescriptions := prescriptions[patient := []];
      }
      prescriptions := prescriptions[patient := prescriptions[patient] + [prescription]];
      db.prescriptions := prescriptions;
    }

    /** `add_patient_record`: appends to the patient's list in the records file. */
    method AddPatientRecord(patient: string, record: string)
      modifies db`patientRecords
      ensures db.patientRecords == Appended(old(db.patientRecords), patient, record)
    {
      var records := db.patientRecords;
      if patient !in records {
        records := records[patient := []];
      }
      records := records[patient := records[patient] + [record]];
      db.patientRecords := records;
    }
  }

  class Patient {
    const username: string
    const finance: Finance

    constructor (username: string, db: Storage)
      ensures this.username == username && finance.db == db
    {
      this.username := username;
      finance := new Finance(db);
    }

    /** `view_appointments`: the loaded appointments whose patient is this patient. */
    method ViewAppointments() returns (v: map<nat, Appointment>)
      ensures v == PatientView(AsMap(finance.db.appointments), username)
    {
      var appts := LoadAppointments(finance.db);
      v := PatientView(appts, username);
    }

    /**
     `request_appointments`: books an appointment with this patient as patient
     (not an emergency), then charges this patient the appointment fee.
     */
    method RequestAppointments(doctor: string, date: string, time: string, room: int, department: string)
      requires finance.db.Valid()
      modifies finance.db`appointments, finance.db`nextAppointmentId, finance.db`ledger
      ensures finance.db.Valid()
      ensures finance.db.appointments == Booked(old(finance.db.appointments), old(finance.db.nextAppointmentId),
                                                Appointment(doctor, username, date, time, room, department, false))
      ensures finance.db.nextAppointmentId == old(finance.db.nextAppointmentId) + 1
      ensures finance.db.ledger == Saved(old(finance.db.ledger), username, AppointmentKind, -AppointmentFee)
    {
      BookAppointment(finance.db, Appointment(doctor, username, date, time, room, department));
      finance.PayForAppointment(username);
    }
  }

  class Receptionist {
    const db: Storage

    constructor (db: Storage)
      ensures this.db == db
    {
      this.db := db;
    }

    /** `book_appointments`: books a non-emergency appointment; nothing is charged. */
    method BookAppointments(doctor: string, patient: string, date: string, time: string, room: int, department: string)
      requires db.Valid()
      modifies db`appointments, db`nextAppointmentId
      ensures db.Valid()
      ensures db.appointments == Booked(old(db.appointments), old(db.nextAppointmentId),
                                        Appointment(doctor, patient, date, time, room, department, false))
      ensures db.nextAppointmentId == old(db.nextAppointmentId) + 1
    {
      BookAppointment(db, Appointment(doctor, patient, date, time, room, department));
    }

    /**
     `cancel_appointments`: deletes the appointment with that id, if any. The
     room it held stays as it was: cancellation releases nothing.
     */
    method CancelAppointments(id: int)
      requires db.Valid()
      modifies db`appointments
      ensures db.Valid()
      ensures db.appointments == Without(old(db.appointments), id)
      ensures db.rooms == old(db.rooms)
    {
      db.appointments := Without(db.appointments, id);
    }
  }
}
