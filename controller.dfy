/** The request handlers of the reservation controller, over an in-memory
    reservations table that they change in place. Each handler is proved to
    move the table exactly as the matching function of module Reservations
    says; the properties of those functions carry over. */
module ReservationController {
  import opened Reservations

  class ReservationTable {
    var rows: Table
    var nextId: int

    ghost predicate Valid()
      reads this
    {
      Reservations.Valid(Snapshot())
    }

    /** The table and its counter as a value. */
    function Snapshot(): Store
      reads this
    {
      Store(rows, nextId)
    }

    /** A database whose reservations table has just been created. */
    constructor ()
      ensures Valid()
      ensures Snapshot() == EmptyStore
    {
      rows := map[];
      nextId := 1;
    }

    /** getAllReservations: every row, with its id. */
    method GetAllReservations() returns (all: Table)
      ensures all.Keys == rows.Keys
      ensures forall id :: id in all ==> all[id] == rows[id]
    {
      all := rows;
    }

    /** getReservationById: the row with that id, or None for a 404. */
    method GetReservationById(id: int) returns (found: Option<Reservation>)
      ensures found.Some? <==> id in rows
      ensures found.Some? ==> found.value == rows[id]
      ensures found == Lookup(rows, id)
    {
      if id !in rows {
        return None;
      }
      found := Some(rows[id]);
    }

    /** createReservation. */
    method CreateReservation(f: Fields) returns (response: Response)
      requires Valid()
      modifies this
      ensures Valid()
      ensures Snapshot() == Create(old(Snapshot()), f).store
      ensures response == Create(old(Snapshot()), f).response
    {
      if MissingFields(f) {
        return BadRequest(MissingFieldsError);
      }
      if NotPositiveNumber(f.spotNumber) {
        return BadRequest(BadSpotError);
      }
      if SpotTaken(rows, f.spotNumber.value, f.date) {
        return Conflict(SpotTakenError);
      }
      if PlateTaken(rows, f.licensePlate, f.date) {
        return Conflict(PlateTakenError);
      }
      var id := nextId;
      rows := rows[id := Reservation(f.name, f.licensePlate, f.spotNumber.value, f.date)];
      nextId := nextId + 1;
      response := Created(id);
    }

    /** updateReservation, given all four columns. */
    method UpdateReservation(id: int, rec: Reservation) returns (response: Response)
      requires Valid()
      modifies this
      ensures Valid()
      ensures Snapshot() == Update(old(Snapshot()), id, rec).store
      ensures response == Update(old(Snapshot()), id, rec).response
    {
      if id !in rows {
        return NotFound;
      }
      rows := rows[id := rec];
      response := Updated;
    }

    /** deleteReservation: the DELETE runs first, its change count decides the answer. */
    method DeleteReservation(id: int) returns (response: Response)
      requires Valid()
      modifies this
      ensures Valid()
      ensures Snapshot() == Delete(old(Snapshot()), id).store
      ensures response == Delete(old(Snapshot()), id).response
    {
      var changes := if id in rows then 1 else 0;
      rows := rows - {id};
      if changes == 0 {
        return NotFound;
      }
      response := Deleted;
    }
  }
}
