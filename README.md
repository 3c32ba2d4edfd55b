# Parking reservation controller, modelled in Dafny

The backend of the parking reservation manager keeps one table of
reservations (`id`, `name`, `licensePlate`, `spotNumber`, `date`) and serves
five handlers over it: list all, get one by id, create, update and delete.
Create is the only handler with rules: a missing-field check, a
positive-spot-number check, a check that the spot is free on that date, a
check that the licence plate has no booking on that date, and only then one
INSERT under a fresh AUTOINCREMENT id. Update and delete each change the
table once.

The model has three modules:

- `Reservations` (`reservations.dfy`): the table as a value
  (`Store` = rows keyed by id + the AUTOINCREMENT counter), the request body
  (`Fields`, with `SpotInput` telling apart a falsy value, a truthy
  non-number and an integer), the responses, the checks, and one function per
  writing handler (`Create`, `Update`, `Delete`) whose contract states what
  the handler promises.
- `ReservationController` (`controller.dfy`): class `ReservationTable`
  holding the rows and the counter as fields, with one method per handler,
  in the handler's order of steps. Each writing method is proved to leave
  the table exactly as the matching function says. Each read-only method
  states its result directly.
- `ReservationProperties` (`properties.dfy`): runs of write requests served
  one after another (`Replay`) and what holds over them. The counter only
  grows. Ids are never handed out twice, even after deletes. Creates and
  deletes keep the table free of double bookings. Compatible bookings all
  succeed. Update can break the no-double-booking rule. The module also
  restates the scenarios of the test suite.

The code fixes these points, and the model follows it:

- Update runs no field validation and no conflict check.
  `UpdateCanDoubleBook` shows an update that leaves two rows on the same
  spot and date.
- Create has no licence-plate length check.

## Model

| member | source | states |
|---|---|---|
| `Reservations.Create` | backend/src/controllers/reservationController.js:31-87 | Errors come in the code's order. A missing field gives the missing-fields 400. A non-number or non-positive spot gives the spot 400, only once the fields are present. A spot-and-date clash gives the spot 409, whatever the name or plate, and wins over a plate clash. A plate-and-date clash gives the plate 409. A body that passes all four checks is answered Created with the counter's value, and no other response is possible. Every rejection leaves the table and the counter unchanged. A success returns the counter's value as the id. That id is new to the table. Exactly that one row is added, holding the four given fields. Every other row is untouched. The counter moves past the id. Validity and the no-double-booking invariant are preserved. |
| `Reservations.Update` | backend/src/controllers/reservationController.js:89-116 | An unknown id gives NotFound and changes nothing. A known id gives Updated: its row becomes the four given fields, the key set and every other row stay as they were, and the counter is unchanged. |
| `Reservations.Delete` | backend/src/controllers/reservationController.js:118-134 | The response is Deleted exactly when the id was in the table, otherwise NotFound. The row with that id is gone and every other row is unchanged. The counter is unchanged. Validity and no-double-booking are preserved. |
| `ReservationController.ReservationTable.constructor` | backend/src/database.js:11-17 | A newly created table has no rows and will hand out id 1 first. |
| `ReservationController.ReservationTable.GetAllReservations` | backend/src/controllers/reservationController.js:3-12 | Returns every row with its id, and nothing else. |
| `ReservationController.ReservationTable.GetReservationById` | backend/src/controllers/reservationController.js:14-29 | Returns the row stored under the id, or None (the 404) exactly when no row has that id; the answer agrees with `Lookup`, the lookup the other lemmas use. |
| `ReservationController.ReservationTable.CreateReservation` | backend/src/controllers/reservationController.js:31-87 | Runs the checks in order, then inserts and advances the counter. The new table, counter and response are exactly those of `Reservations.Create` on the old table. The table stays valid. |
| `ReservationController.ReservationTable.UpdateReservation` | backend/src/controllers/reservationController.js:89-111 | Checks existence, then replaces the row in place. The new table and response are exactly those of `Reservations.Update`. |
| `ReservationController.ReservationTable.DeleteReservation` | backend/src/controllers/reservationController.js:118-129 | Runs the DELETE first, and its change count decides between Deleted and NotFound. The new table and response are exactly those of `Reservations.Delete`. |
| `ReservationProperties.Apply` | backend/src/controllers/reservationController.js:74-82 | One write request keeps the store valid. A Created response comes only from a POST, carries the counter's value and advances the counter by one. Any other response leaves the counter where it was. |
| `ReservationProperties.Replay` | backend/src/controllers/reservationController.js:74-77 | A run of requests gives one response per request and never moves the counter backwards. |
| `ReservationProperties.ReplayKeepsValid` | backend/src/database.js:12 | After any run of creates, updates and deletes, every id in the table still lies below the AUTOINCREMENT counter. |
| `ReservationProperties.IdsNeverReused` | backend/src/controllers/reservationController.js:74-82 | Over any run, each id handed out lies between the starting and final counter and was not in the starting table. The ids strictly increase from one create to the next, so no id is handed out twice, even after a delete. |
| `ReservationProperties.CreatesAndDeletesKeepNoDoubleBooking` | backend/src/controllers/reservationController.js:51-76 | A run with no update keeps "no two rows share (spot, date) and no two share (plate, date)". |
| `ReservationProperties.CompatibleCreatesAllSucceed` | backend/src/controllers/reservationController.js:51-82 | Well-formed bodies that clash neither with the table nor with each other are all answered Created. |
| `ReservationProperties.CreateThenGet` | backend/test/reservations.test.js:35-48 | After a successful create, a GET of the returned id yields exactly the four given fields. |
| `ReservationProperties.DeleteTwice` | backend/test/reservations.test.js:94-98 | After a delete, a GET of that id finds nothing. A second delete of the same id answers NotFound and changes nothing. |
| `ReservationProperties.UpdateToOwnValues` | backend/src/controllers/reservationController.js:96-111 | Updating a row to its own values answers Updated and leaves the store as it was. |
| `ReservationProperties.UpdateCanDoubleBook` | backend/src/controllers/reservationController.js:102-105 | A concrete valid, double-booking-free table in which an update answers Updated and leaves two rows on the same spot and date. |
| `ReservationProperties.SecondBookingOfSpotIsRejected` | backend/test/reservations.test.js:21-33 | From an empty table, Doe books spot 2 on 2025-09-25 and gets id 1. Bob's booking of the same spot and date gets the spot 409. One row remains, and it is Doe's. |
| `ReservationProperties.MoveToFreeSpot` | backend/test/reservations.test.js:56-77 | Moving a booking to a free spot on the same date answers Updated. The row then holds the new name and spot. |

## Left out

- HTTP: routing, request parsing, status codes and JSON bodies. Responses are a datatype whose constructor stands for the status, and the error texts are kept as constants.
- SQLite: opening the database file and re-running CREATE TABLE on every request. The table is an in-memory map plus an explicit AUTOINCREMENT counter.
- The 500 branches (`catch`) of every handler: the in-memory table cannot fail, so no storage error is modelled.
- Concurrency: the handlers await the database between the conflict checks and the INSERT, so two concurrent creates can both pass the checks. The model serves requests one at a time and does not capture this race.
- JavaScript value semantics: text fields are strings, with "" standing for absent, null or empty. A non-string name, plate or date is not modelled. Spot numbers are integers: NaN and fractional spot numbers (2.5 passes the spot check) are not modelled, and `SpotInput` covers the cases the two checks tell apart.
- Request ids: the id in the path is taken as an integer. SQLite's conversion of the id text is not modelled.
- ReservationController.ReservationTable.UpdateReservation: its callers must supply all four columns, as a `Reservation`. A body with a missing field would hit the table's NOT NULL constraints inside the database driver, and that path is not modelled. Its second NotFound branch (`changes === 0` after the UPDATE) cannot be reached when requests are served one at a time, so it is left out.
- ReservationController.ReservationTable.GetAllReservations: returns the rows as a map keyed by id. The order in which SQLite lists them is not modelled.
- The frontend: its 1–20 spot selector is a form restriction and not a backend rule.
- Ids are unbounded integers in the model. SQLite's AUTOINCREMENT fails once rowid 2^63-1 is reached, which the create handler would report as a 500. JavaScript also loses precision in `lastID` above 2^53. Neither limit is modelled.
