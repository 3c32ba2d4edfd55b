/** What holds over a sequence of write requests served one after another:
    the counter only grows, ids are never handed out twice (even after a
    delete), creates and deletes keep the table free of double bookings, and an
    update can break that. Reads leave the store alone, so only writes appear. */
module ReservationProperties {
  import opened Reservations

  /** A POST, PUT or DELETE request on /api/reservations. */
  datatype Write = Post(body: Fields) | Put(id: int, rec: Reservation) | Remove(id: int)

  function Apply(s: Store, w: Write): (r: Step)
    ensures Valid(s) ==> Valid(r.store)
    ensures r.response.Created? ==> w.Post? && r.response.id == s.nextId && r.store.nextId == s.nextId + 1
    ensures !r.response.Created? ==> r.store.nextId == s.nextId
  {
    match w
    case Post(f) => Create(s, f)
    case Put(id, rec) => Update(s, id, rec)
    case Remove(id) => Delete(s, id)
  }

  /** The store after a run of requests, and one response per request. */
  datatype Trace = Trace(store: Store, responses: seq<Response>)

  function Replay(s: Store, ws: seq<Write>): (r: Trace)
    ensures |r.responses| == |ws|
    ensures r.store.nextId >= s.nextId
    decreases |ws|
  {
    if ws == [] then Trace(s, [])
    else
      var first := Apply(s, ws[0]);
      var rest := Replay(first.store, ws[1..]);
      Trace(rest.store, [first.response] + rest.responses)
  }

  /** Every store a run reaches from a valid store is valid. */
  lemma {:induction false} ReplayKeepsValid(s: Store, ws: seq<Write>)
    requires Valid(s)
    ensures Valid(Replay(s, ws).store)
    decreases |ws|
  {
    if ws != [] {
      ReplayKeepsValid(Apply(s, ws[0]).store, ws[1..]);
    }
  }

  /** Every id among the responses lies in [lo, hi). */
  ghost predicate IdsWithin(rs: seq<Response>, lo: int, hi: int)
  {
    forall i :: 0 <= i < |rs| && rs[i].Created? ==> lo <= rs[i].id < hi
  }

  /** The ids among the responses strictly increase. */
  ghost predicate IdsIncrease(rs: seq<Response>)
  {
    forall i, j :: 0 <= i < j < |rs| && rs[i].Created? && rs[j].Created? ==> rs[i].id < rs[j].id
  }

  /** The ids a run hands out are new to the store it started from, lie below
      the final counter, and strictly increase from one create to the next: no
      id is ever handed out twice, whatever was deleted in between. */
  lemma {:induction false} IdsNeverReused(s: Store, ws: seq<Write>)
    requires Valid(s)
    ensures IdsWithin(Replay(s, ws).responses, s.nextId, Replay(s, ws).store.nextId)
    ensures IdsIncrease(Replay(s, ws).responses)
    ensures forall i :: 0 <= i < |ws| && Replay(s, ws).responses[i].Created? ==>
              Replay(s, ws).responses[i].id !in s.rows
    decreases |ws|
  {
    if ws != [] {
      var first := Apply(s, ws[0]);
      var rest := Replay(first.store, ws[1..]);
      IdsNeverReused(first.store, ws[1..]);
      var rs := Replay(s, ws).responses;
      assert rs == [first.response] + rest.responses;
      assert Replay(s, ws).store == rest.store;
      assert s.nextId <= first.store.nextId <= rest.store.nextId;
      forall i | 0 <= i < |rs| && rs[i].Created?
        ensures s.nextId <= rs[i].id < rest.store.nextId
      {
        if i == 0 {
          assert rs[0] == first.response;
        } else {
          assert rs[i] == rest.responses[i - 1];
        }
      }
      forall i, j | 0 <= i < j < |rs| && rs[i].Created? && rs[j].Created?
        ensures rs[i].id < rs[j].id
      {
        assert rs[j] == rest.responses[j - 1];
        if i == 0 {
          assert rs[0] == first.response;
        } else {
          assert rs[i] == rest.responses[i - 1];
        }
      }
    }
  }

  /** A run of creates and deletes, with no update, keeps the table free of
      double bookings. */
  lemma {:induction false} CreatesAndDeletesKeepNoDoubleBooking(s: Store, ws: seq<Write>)
    requires NoDoubleBooking(s.rows)
    requires forall i :: 0 <= i < |ws| ==> !ws[i].Put?
    ensures NoDoubleBooking(Replay(s, ws).store.rows)
    decreases |ws|
  {
    if ws != [] {
      CreatesAndDeletesKeepNoDoubleBooking(Apply(s, ws[0]).store, ws[1..]);
    }
  }

  /** Two bodies that may both be booked: on the same date they name
      different spots and different plates. */
  ghost predicate Compatible(a: Fields, b: Fields)
    requires WellFormed(a) && WellFormed(b)
  {
    a.date == b.date ==>
      a.spotNumber.value != b.spotNumber.value && a.licensePlate != b.licensePlate
  }

  /** Well-formed bodies that conflict neither with the table nor with each
      other are all created, each under its own id. */
  lemma {:induction false} CompatibleCreatesAllSucceed(s: Store, ws: seq<Write>)
    requires Valid(s)
    requires forall i :: 0 <= i < |ws| ==>
               && ws[i].Post?
               && WellFormed(ws[i].body)
               && !SpotTaken(s.rows, ws[i].body.spotNumber.value, ws[i].body.date)
               && !PlateTaken(s.rows, ws[i].body.licensePlate, ws[i].body.date)
    requires forall i, j :: 0 <= i < j < |ws| ==> ws[i].Post? && ws[j].Post? && WellFormed(ws[i].body) && WellFormed(ws[j].body) && Compatible(ws[i].body, ws[j].body)
    ensures forall i :: 0 <= i < |ws| ==> Replay(s, ws).responses[i].Created?
    decreases |ws|
  {
    if ws != [] {
      var first := Apply(s, ws[0]);
      var t := first.store.rows;
      assert first.response.Created?;
      forall i | 0 <= i < |ws[1..]|
        ensures !SpotTaken(t, ws[1..][i].body.spotNumber.value, ws[1..][i].body.date)
        ensures !PlateTaken(t, ws[1..][i].body.licensePlate, ws[1..][i].body.date)
      {
        assert Compatible(ws[0].body, ws[i + 1].body);
      }
      CompatibleCreatesAllSucceed(first.store, ws[1..]);
      var rs := Replay(s, ws).responses;
      forall i | 0 <= i < |ws| ensures rs[i].Created? {
        if i > 0 {
          assert rs[i] == Replay(first.store, ws[1..]).responses[i - 1];
        }
      }
    }
  }

  /** A successful create is visible to a following GET of the returned id. */
  lemma CreateThenGet(s: Store, f: Fields)
    requires Valid(s)
    requires Create(s, f).response.Created?
    ensures Lookup(Create(s, f).store.rows, Create(s, f).response.id) == Some(Record(f))
  {
  }

  /** A delete removes the row for good: a GET of that id and a second delete
      both answer NotFound. */
  lemma DeleteTwice(s: Store, id: int)
    ensures Lookup(Delete(s, id).store.rows, id) == None
    ensures Delete(Delete(s, id).store, id).response == NotFound
    ensures Delete(Delete(s, id).store, id).store == Delete(s, id).store
  {
  }

  /** Updating a row to its own values succeeds and changes nothing. */
  lemma UpdateToOwnValues(s: Store, id: int)
    requires id in s.rows
    ensures Update(s, id, s.rows[id]) == Step(s, Updated)
  {
  }

  /** Because update checks no conflict, an update can book a spot that is
      already taken on that date. */
  lemma UpdateCanDoubleBook()
    ensures var s := Store(map[1 := Reservation("Ann", "AAA111", 1, "2025-09-25"),
                               2 := Reservation("Bob", "BBB222", 2, "2025-09-25")], 3);
            && Valid(s)
            && NoDoubleBooking(s.rows)
            && Update(s, 2, Reservation("Bob", "BBB222", 1, "2025-09-25")).response == Updated
            && !NoDoubleBooking(Update(s, 2, Reservation("Bob", "BBB222", 1, "2025-09-25")).store.rows)
  {
    var s := Store(map[1 := Reservation("Ann", "AAA111", 1, "2025-09-25"),
                       2 := Reservation("Bob", "BBB222", 2, "2025-09-25")], 3);
    var t := Update(s, 2, Reservation("Bob", "BBB222", 1, "2025-09-25")).store.rows;
    assert t[1].spotNumber == t[2].spotNumber && t[1].date == t[2].date;
  }

  /** The booking scenario of the test suite: a first booking of spot 2 on
      2025-09-25 gets id 1; a second booking of that spot and date by someone
      else is a conflict and leaves one row, which a GET returns unchanged. */
  lemma SecondBookingOfSpotIsRejected()
    ensures var doe := Fields("Doe", "ABC1234", Number(2), "2025-09-25");
            var bob := Fields("Bob", "XYZ789", Number(2), "2025-09-25");
            var r := Replay(EmptyStore, [Post(doe), Post(bob)]);
            && r.responses == [Created(1), Conflict(SpotTakenError)]
            && |r.store.rows| == 1
            && Lookup(r.store.rows, 1) == Some(Reservation("Doe", "ABC1234", 2, "2025-09-25"))
  {
    var doe := Fields("Doe", "ABC1234", Number(2), "2025-09-25");
    var bob := Fields("Bob", "XYZ789", Number(2), "2025-09-25");
    var first := Create(EmptyStore, doe);
    assert first.store.rows == map[1 := Record(doe)];
    assert first.store.rows[1].spotNumber == 2 && first.store.rows[1].date == "2025-09-25";
    assert SpotTaken(first.store.rows, 2, "2025-09-25");
    var second := Create(first.store, bob);
    assert second == Step(first.store, Conflict(SpotTakenError));
    var ws := [Post(doe), Post(bob)];
    assert ws[1..] == [Post(bob)];
    assert ws[1..][1..] == [];
    assert Replay(second.store, []) == Trace(first.store, []);
    assert Replay(first.store, ws[1..]) == Trace(first.store, [Conflict(SpotTakenError)]);
    assert Replay(EmptyStore, ws) == Trace(first.store, [Created(1), Conflict(SpotTakenError)]);
    assert first.store.rows.Keys == {1};
  }

  /** The update scenario: a booking moved to a free spot on the same date
      succeeds and the row shows the new spot. */
  lemma MoveToFreeSpot()
    ensures var david := Fields("David", "PQR111", Number(4), "2025-09-27");
            var moved := Reservation("David Updated", "PQR111", 5, "2025-09-27");
            var r := Replay(EmptyStore, [Post(david), Put(1, moved)]);
            && r.responses == [Created(1), Updated]
            && r.store.rows == map[1 := moved]
  {
    var david := Fields("David", "PQR111", Number(4), "2025-09-27");
    var moved := Reservation("David Updated", "PQR111", 5, "2025-09-27");
    var ws := [Post(david), Put(1, moved)];
    var first := Create(EmptyStore, david);
    assert first.store == Store(map[1 := Record(david)], 2);
    var second := Update(first.store, 1, moved);
    assert second == Step(Store(map[1 := moved], 2), Updated);
    assert ws[1..] == [Put(1, moved)];
    assert ws[1..][1..] == [];
    assert Replay(first.store, ws[1..]) == Trace(second.store, [Updated]);
    assert Replay(EmptyStore, ws) == Trace(second.store, [Created(1), Updated]);
  }
}
