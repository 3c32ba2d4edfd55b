/** The reservations table and the decisions the request handlers take over it,
    as values: a handler becomes a function from the store before the request
    to the store after it and the response it sends. */
module Reservations {

  datatype Option<T> = None | Some(value: T)

  /** One row of the table, without its id. Text columns are compared by exact
      equality, as SQL `=` on TEXT does. */
  datatype Reservation = Reservation(name: string, licensePlate: string, spotNumber: int, date: string)

  /** The rows, keyed by their INTEGER PRIMARY KEY. */
  type Table = map<int, Reservation>

  /** The table together with the AUTOINCREMENT counter: `nextId` is the id the
      next INSERT receives. The counter only grows, so ids are never reused. */
  datatype Store = Store(rows: Table, nextId: int)

  /** A freshly created table: no rows, and the first id handed out is 1. */
  const EmptyStore := Store(map[], 1)

  /** Every id in the table was handed out earlier by the counter. */
  ghost predicate Valid(s: Store)
  {
    && 1 <= s.nextId
    && forall id :: id in s.rows ==> 1 <= id < s.nextId
  }

  /** No two rows book the same spot on the same date, and no two rows book the
      same licence plate on the same date. */
  ghost predicate NoDoubleBooking(t: Table)
  {
    forall i, j :: i in t && j in t && i != j && t[i].date == t[j].date ==>
      t[i].spotNumber != t[j].spotNumber && t[i].licensePlate != t[j].licensePlate
  }

  /** The `spotNumber` of a request body: a falsy value that is not a number
      (absent, null, "", false), a truthy value that is not a number (such as
      the string "3"), or an integer. */
  datatype SpotInput = Missing | NotANumber | Number(value: int)

  /** The body of a POST request. An absent, null or empty text field is "". */
  datatype Fields = Fields(name: string, licensePlate: string, spotNumber: SpotInput, date: string)

  /** What a handler answers; the HTTP status is implied by the constructor
      (201, 200, 200, 400, 409, 404). */
  datatype Response =
    | Created(id: int)
    | Updated
    | Deleted
    | BadRequest(error: string)
    | Conflict(error: string)
    | NotFound

  const MissingFieldsError := "Missing required fields: name, licensePlate, spotNumber, date"
  const BadSpotError := "Spot number must be a positive number"
  const SpotTakenError := "Parking spot is already reserved for this date"
  const PlateTakenError := "This license plate already has a reservation for this date"

  /** The new store and the response of one request. */
  datatype Step = Step(store: Store, response: Response)

  /** `!spotNumber` in JavaScript: the falsy non-numbers, and the number 0. */
  predicate Falsy(s: SpotInput)
  {
    s.Missing? || s == Number(0)
  }

  /** The first check of createReservation: a required field is falsy. */
  predicate MissingFields(f: Fields)
  {
    f.name == "" || f.licensePlate == "" || Falsy(f.spotNumber) || f.date == ""
  }

  /** The second check: `typeof spotNumber !== 'number' || spotNumber <= 0`. */
  predicate NotPositiveNumber(s: SpotInput)
  {
    !s.Number? || s.value <= 0
  }

  /** A body that passes both field checks. */
  predicate WellFormed(f: Fields)
  {
    !MissingFields(f) && !NotPositiveNumber(f.spotNumber)
  }

  /** `SELECT * FROM reservations WHERE spotNumber = ? AND date = ?` finds a row. */
  predicate SpotTaken(t: Table, spot: int, date: string)
  {
    exists id :: id in t && t[id].spotNumber == spot && t[id].date == date
  }

  /** `SELECT * FROM reservations WHERE licensePlate = ? AND date = ?` finds a row. */
  predicate PlateTaken(t: Table, plate: string, date: string)
  {
    exists id :: id in t && t[id].licensePlate == plate && t[id].date == date
  }

  /** The row a well-formed body inserts. */
  function Record(f: Fields): Reservation
    requires f.spotNumber.Number?
  {
    Reservation(f.name, f.licensePlate, f.spotNumber.value, f.date)
  }

  /** `SELECT * FROM reservations WHERE id = ?`. */
  function Lookup(t: Table, id: int): Option<Reservation>
  {
    if id in t then Some(t[id]) else None
  }

  /** createReservation: two field checks, a spot conflict check, a plate
      conflict check, then one INSERT with the next id. */
  function Create(s: Store, f: Fields): (r: Step)
    // the order in which the errors are reported
    ensures r.response == BadRequest(MissingFieldsError) <==> MissingFields(f)
    ensures r.response == BadRequest(BadSpotError) <==>
              !MissingFields(f) && NotPositiveNumber(f.spotNumber)
    ensures r.response == Conflict(SpotTakenError) <==>
              WellFormed(f) && SpotTaken(s.rows, f.spotNumber.value, f.date)
    ensures r.response == Conflict(PlateTakenError) <==>
              && WellFormed(f)
              && !SpotTaken(s.rows, f.spotNumber.value, f.date)
              && PlateTaken(s.rows, f.licensePlate, f.date)
    // a body that passes all four checks is inserted under the counter's value
    ensures (&& WellFormed(f)
             && !SpotTaken(s.rows, f.spotNumber.value, f.date)
             && !PlateTaken(s.rows, f.licensePlate, f.date)) ==> r.response == Created(s.nextId)
    ensures r.response in {BadRequest(MissingFieldsError), BadRequest(BadSpotError),
                           Conflict(SpotTakenError), Conflict(PlateTakenError), Created(s.nextId)}
    // a rejected request leaves the table and the counter as they were
    ensures !r.response.Created? ==> r.store == s
    // an accepted one adds exactly one row, under a fresh id, and touches no other
    ensures r.response.Created? ==> WellFormed(f)
    // the id is the counter's current value, and the counter moves past it
    ensures r.response.Created? ==> r.response.id == s.nextId && r.store.nextId == s.nextId + 1
    ensures Valid(s) && r.response.Created? ==> r.response.id !in s.rows
    ensures r.response.Created? ==>
              && r.store.rows.Keys == s.rows.Keys + {r.response.id}
              && r.store.rows[r.response.id] == Record(f)
              && (forall id :: id in s.rows && id != r.response.id ==> r.store.rows[id] == s.rows[id])
    ensures Valid(s) ==> Valid(r.store)
    ensures NoDoubleBooking(s.rows) ==> NoDoubleBooking(r.store.rows)
  {
    if MissingFields(f) then
      Step(s, BadRequest(MissingFieldsError))
    else if NotPositiveNumber(f.spotNumber) then
      Step(s, BadRequest(BadSpotError))
    else if SpotTaken(s.rows, f.spotNumber.value, f.date) then
      Step(s, Conflict(SpotTakenError))
    else if PlateTaken(s.rows, f.licensePlate, f.date) then
      Step(s, Conflict(PlateTakenError))
    else
      Step(Store(s.rows[s.nextId := Record(f)], s.nextId + 1), Created(s.nextId))
  }

  /** updateReservation: an existence check, then one UPDATE replacing all four
      columns. There is no field validation and no conflict check. */
  function Update(s: Store, id: int, rec: Reservation): (r: Step)
    ensures r.response == NotFound <==> id !in s.rows
    ensures r.response == NotFound || r.response == Updated
    ensures id !in s.rows ==> r.store == s
    ensures id in s.rows ==>
              && r.store.rows.Keys == s.rows.Keys
              && r.store.rows[id] == rec
              && (forall other :: other in s.rows && other != id ==> r.store.rows[other] == s.rows[other])
    ensures r.store.nextId == s.nextId
    ensures Valid(s) ==> Valid(r.store)
  {
    if id !in s.rows then Step(s, NotFound)
    else Step(Store(s.rows[id := rec], s.nextId), Updated)
  }

  /** deleteReservation: one DELETE; no deleted row means NotFound. */
  function Delete(s: Store, id: int): (r: Step)
    ensures r.response == Deleted <==> id in s.rows
    ensures r.response == Deleted || r.response == NotFound
    ensures r.store.rows.Keys == s.rows.Keys - {id}
    ensures forall other :: other in r.store.rows ==> r.store.rows[other] == s.rows[other]
    ensures r.store.nextId == s.nextId
    ensures Valid(s) ==> Valid(r.store)
    ensures NoDoubleBooking(s.rows) ==> NoDoubleBooking(r.store.rows)
  {
    var changes := if id in s.rows then 1 else 0;
    Step(Store(s.rows - {id}, s.nextId), if changes == 0 then NotFound else Deleted)
  }
}
