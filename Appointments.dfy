/**
 The appointment ledger of appointment.py: booking inserts a row with a fresh
 identity id and performs no conflict check; loading reads every row into a map
 from id to its seven fields; saving deletes every row and inserts one row per
 entry of the map it is given, under new ids.
 */
module Appointments {
  import opened Tables

  /** The ids stored in a sequence of appointment rows. */
  function Ids(rows: seq<AppointmentRow>): set<nat> {
    set i | 0 <= i < |rows| :: rows[i].id
  }

  /**
   The map `load_appointments` builds, row by row in storage order: each id
   maps to its row's fields, later rows overwriting earlier ones.
   */
  function AsMap(rows: seq<AppointmentRow>): (m: map<nat, Appointment>)
    ensures m.Keys == Ids(rows)
  {
    if rows == [] then map[]
    else
      var front := rows[..|rows| - 1];
      assert Ids(rows) == Ids(front) + {rows[|rows| - 1].id} by {
        forall k | k in Ids(rows) ensures k in Ids(front) + {rows[|rows| - 1].id} {
          var i :| 0 <= i < |rows| && rows[i].id == k;
          if i < |front| {
            assert front[i].id == k;
          }
        }
      }
      AsMap(front)[rows[|rows| - 1].id := rows[|rows| - 1].appt]
  }

  /** With identity ids, the loaded map gives every row's id exactly that row's fields. */
  lemma {:induction false} AsMapAt(rows: seq<AppointmentRow>, i: nat)
    requires IdsIncreasing(rows)
    requires i < |rows|
    ensures rows[i].id in AsMap(rows) && AsMap(rows)[rows[i].id] == rows[i].appt
  {
    var n := |rows| - 1;
    if i < n {
      AsMapAt(rows[..n], i);
    }
  }

  /** The rows after `book_appointment` gives `a` the id `id`. */
  function Booked(rows: seq<AppointmentRow>, id: nat, a: Appointment): seq<AppointmentRow> {
    rows + [AppointmentRow(id, a)]
  }

  /**
   There is no conflict check: booking the same appointment twice (same doctor,
   patient, date, time and room) yields two records under two ids.
   */
  lemma DoubleBooking(rows: seq<AppointmentRow>, next: nat, a: Appointment)
    requires IdsIncreasing(rows)
    requires forall i :: 0 <= i < |rows| ==> rows[i].id < next
    ensures var twice := AsMap(Booked(Booked(rows, next, a), next + 1, a));
            next in twice && next + 1 in twice && twice[next] == a && twice[next + 1] == a
  {
    var once := Booked(rows, next, a);
    assert IdsIncreasing(once);
    assert AsMap(once)[next] == a by { AsMapAt(once, |rows|); }
  }

  /** The rows after `DELETE FROM Appointments WHERE AppointmentID = id`, in storage order. */
  function Without(rows: seq<AppointmentRow>, id: int): (r: seq<AppointmentRow>)
    ensures forall j :: 0 <= j < |r| ==> r[j].id != id
    ensures forall j :: 0 <= j < |r| ==> r[j] in rows
    ensures forall i :: 0 <= i < |rows| && rows[i].id != id ==> rows[i] in r
    ensures IdsIncreasing(rows) ==> IdsIncreasing(r)
  {
    if rows == [] then []
    else
      var front := Without(rows[..|rows| - 1], id);
      var last := rows[|rows| - 1];
      assert forall i :: 0 <= i < |rows| - 1 ==> rows[i] == rows[..|rows| - 1][i];
      if last.id == id then front else front + [last]
  }

  /** Cancelling an id that no row has, such as a negative one, leaves the table as it was. */
  lemma {:induction false} WithoutAbsent(rows: seq<AppointmentRow>, id: int)
    requires forall i :: 0 <= i < |rows| ==> rows[i].id != id
    ensures Without(rows, id) == rows
  {
    if rows != [] {
      var n := |rows| - 1;
      var front := rows[..n];
      WithoutAbsent(front, id);
      assert Without(rows, id) == Without(front, id) + [rows[n]];
      FrontAndLast(rows);
    }
  }

  lemma FrontAndLast(rows: seq<AppointmentRow>)
    requires rows != []
    ensures rows[..|rows| - 1] + [rows[|rows| - 1]] == rows
  {
  }

  /** Every appointment that loads after a cancellation loaded the same way before it. */
  lemma {:induction false} SurvivorsLoad(rows: seq<AppointmentRow>, id: nat)
    requires IdsIncreasing(rows)
    ensures forall k :: k in AsMap(Without(rows, id)) ==>
              k != id && k in AsMap(rows) && AsMap(Without(rows, id))[k] == AsMap(rows)[k]
  {
    var after := Without(rows, id);
    forall k | k in AsMap(after) ensures k != id && k in AsMap(rows) && AsMap(after)[k] == AsMap(rows)[k] {
      assert k in Ids(after);
      var j :| 0 <= j < |after| && after[j].id == k;
      AsMapAt(after, j);
      var i :| 0 <= i < |rows| && rows[i] == after[j];
      AsMapAt(rows, i);
    }
  }

  /** Every appointment other than the cancelled one still loads after the cancellation. */
  lemma {:induction false} OthersStillLoad(rows: seq<AppointmentRow>, id: nat)
    ensures forall k :: k in AsMap(rows) && k != id ==> k in AsMap(Without(rows, id))
  {
    var after := Without(rows, id);
    forall k | k in AsMap(rows) && k != id ensures k in AsMap(after) {
      assert k in Ids(rows);
      var i :| 0 <= i < |rows| && rows[i].id == k;
      assert rows[i] in after;
      var j :| 0 <= j < |after| && after[j] == rows[i];
      assert k in Ids(after);
    }
  }

  lemma MapsAgree(a: map<nat, Appointment>, b: map<nat, Appointment>)
    requires forall k :: k in a ==> k in b && a[k] == b[k]
    requires forall k :: k in b ==> k in a
    ensures a == b
  {
    assert a.Keys == b.Keys;
  }

  /** Cancelling an id removes exactly that id from the loaded appointments. */
  lemma CancelledNotLoaded(rows: seq<AppointmentRow>, id: nat)
    requires IdsIncreasing(rows)
    ensures AsMap(Without(rows, id)) == AsMap(rows) - {id}
  {
    SurvivorsLoad(rows, id);
    OthersStillLoad(rows, id);
    MapsAgree(AsMap(Without(rows, id)), AsMap(rows) - {id});
  }

  /** Booking and then cancelling that booking gives back the appointments as they loaded before. */
  lemma BookThenCancel(rows: seq<AppointmentRow>, next: nat, a: Appointment)
    requires IdsIncreasing(rows)
    requires forall i :: 0 <= i < |rows| ==> rows[i].id < next
    ensures AsMap(Without(Booked(rows, next, a), next)) == AsMap(rows)
  {
    var booked := Booked(rows, next, a);
    assert IdsIncreasing(booked);
    assert booked[..|booked| - 1] == rows;
    assert next !in Ids(rows);
    CancelledNotLoaded(booked, next);
  }

  /** `book_appointment`: inserts one row with the appointment's seven fields under a fresh id. */
  method BookAppointment(db: Storage, a: Appointment)
    requires db.Valid()
    modifies db`appointments, db`nextAppointmentId
    ensures db.Valid()
    ensures db.nextAppointmentId == old(db.nextAppointmentId) + 1
    ensures db.appointments == Booked(old(db.appointments), old(db.nextAppointmentId), a)
  {
    db.appointments := db.appointments + [AppointmentRow(db.nextAppointmentId, a)];
    db.nextAppointmentId := db.nextAppointmentId + 1;
  }

  /** `load_appointments`: reads every row, in storage order, into a map from id to fields. */
  method LoadAppointments(db: Storage) returns (m: map<nat, Appointment>)
    ensures m == AsMap(db.appointments)
  {
    m := map[];
    var rows := db.appointments;
    for i := 0 to |rows|
      invariant m == AsMap(rows[..i])
    {
      assert rows[..i + 1][..i] == rows[..i];
      m := m[rows[i].id := rows[i].appt];
    }
    assert rows[..|rows|] == rows;
  }

  /**
   `save_appointments(d)`: deletes every row, then inserts one row per entry of
   `d` in the map's iteration order `order`. The keys of `d` are not kept: each
   inserted row takes the next identity id.
   */
  method SaveAppointments(db: Storage, d: map<nat, Appointment>) returns (ghost order: seq<nat>)
    requires db.Valid()
    modifies db`appointments, db`nextAppointmentId
    ensures db.Valid()
    ensures |order| == |d| && (forall k :: k in d <==> k in order)
    ensures forall i, j :: 0 <= i < j < |order| ==> order[i] != order[j]
    ensures |db.appointments| == |order|
    ensures forall i :: 0 <= i < |order| ==>
              db.appointments[i] == AppointmentRow(old(db.nextAppointmentId) + i, d[order[i]])
    ensures db.nextAppointmentId == old(db.nextAppointmentId) + |order|
    ensures (forall k :: k in d ==> k < old(db.nextAppointmentId)) ==>
              forall i :: 0 <= i < |db.appointments| ==> db.appointments[i].id !in d
  {
    var rows: seq<AppointmentRow> := [];
    var next := db.nextAppointmentId;
    ghost var start := next;
    order := [];
    var rest := d.Keys;
    while rest != {}
      invariant rest <= d.Keys
      invariant forall k :: k in d <==> k in order || k in rest
      invariant forall k :: k in order ==> k !in rest
      invariant |order| + |rest| == |d.Keys|
      invariant forall i, j :: 0 <= i < j < |order| ==> order[i] != order[j]
      invariant |rows| == |order|
      invariant forall i :: 0 <= i < |order| ==> rows[i] == AppointmentRow(start + i, d[order[i]])
      invariant next == start + |order|
      decreases rest
    {
      var k :| k in rest;
      rows := rows + [AppointmentRow(next, d[k])];
      next := next + 1;
      order := order + [k];
      rest := rest - {k};
    }
    db.appointments := rows;
    db.nextAppointmentId := next;
  }
}
