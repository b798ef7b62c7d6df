/** Concrete runs of the booking service on a one-seat flight, showing the
    consequence of rebuilding flights from the store with every seat free. */
module Scenarios {
  import opened Model
  import opened Store
  import opened Flights
  import opened Bookings

  const NoCreateFaults := CreateFaults(false, false, false, false)
  const NoCancelFaults := CancelFaults(false, false, false, false)
  const AliceUuid := "0a1b2c3d-0000-4000-8000-000000000001"
  const BobUuid := "9f8e7d6c-0000-4000-8000-000000000002"

  lemma UuidPrefixes()
    ensures |AliceUuid| == 36 && AliceUuid[..8] == "0a1b2c3d"
    ensures |BobUuid| == 36 && BobUuid[..8] == "9f8e7d6c"
  {
  }

  /** A store holding one flight "F1" with a single seat, still free, and two customers. */
  method OneSeatStore() returns (db: Database)
    ensures fresh(db)
    ensures db.flights.Keys == {"F1"} && db.flights["F1"].totalSeats == 1 && db.flights["F1"].availableSeats == 1
    ensures db.bookings == map[]
    ensures db.users.Keys == {"alice", "bob"}
  {
    var day := DateTime(20000, 600);
    var row := FlightRow("Air", "CAI", "JED", day, DateTime(20000, 780), 1, 1);
    db := new Database(map["F1" := row], map[],
                       map["alice" := UserRow("pw", "a@x", "Alice", CustomerRole),
                           "bob" := UserRow("pw", "b@x", "Bob", CustomerRole)]);
  }

  /** The flight service and the booking service over one store, the flight
      list loaded without error. */
  method OpenServices(db: Database) returns (service: BookingService)
    ensures service.Valid() && service.db == db
  {
    var flights := new FlightService(db, false);
    service := new BookingService(flights);
  }

  /** One customer looks the one-seat flight "F1" up and books it. */
  method BookLookedUp(service: BookingService, user: User, uuid: string) returns (outcome: CreateOutcome)
    requires service.Valid() && |uuid| == 36
    requires "F1" in service.db.flights && service.db.flights["F1"].totalSeats == 1
    requires user.username in service.db.users && uuid[..8] !in service.db.bookings
    modifies service.db, user`bookings
    ensures outcome.Created?
    ensures service.db.flights == WithSeats(old(service.db.flights), "F1", 0)
    ensures service.db.bookings.Keys == old(service.db.bookings.Keys) + {uuid[..8]}
    ensures service.db.users == old(service.db.users)
  {
    var f := service.flightService.GetFlightByNumber("F1", false);
    outcome := service.CreateBooking(user, f, NoCreateFaults, uuid, DateTime(19990, 0));
  }

  /** Two customers each look the flight up and book it: both bookings are
      confirmed and recorded although the flight has one seat, and the store
      still shows that seat as taken only once. */
  method OneSeatBookedTwice() returns (first: CreateOutcome, second: CreateOutcome, recorded: nat, stored: int)
    ensures first.Created? && second.Created?
    ensures recorded == 2 && stored == 0
  {
    var db := OneSeatStore();
    var service := OpenServices(db);
    var alice := new User.Customer("alice", "pw", "Alice", "a@x");
    var bob := new User.Customer("bob", "pw", "Bob", "b@x");

    UuidPrefixes();
    first := BookLookedUp(service, alice, AliceUuid);
    assert db.bookings.Keys == {"0a1b2c3d"};
    second := BookLookedUp(service, bob, BobUuid);
    assert db.bookings.Keys == {"0a1b2c3d", "9f8e7d6c"};
    recorded := |db.bookings.Keys|;
    stored := db.flights["F1"].availableSeats;
  }

  /** The same two requests made on one shared flight object (a flight taken
      from the search results): the second finds no seat and is refused. */
  method OneSeatSharedObject() returns (first: CreateOutcome, second: CreateOutcome, stored: int)
    ensures first.Created? && second.NotCreated?
    ensures stored == 0
  {
    var db := OneSeatStore();
    var service := OpenServices(db);
    var alice := new User.Customer("alice", "pw", "Alice", "a@x");
    var bob := new User.Customer("bob", "pw", "Bob", "b@x");
    var now := DateTime(19990, 0);

    UuidPrefixes();
    var f := service.flightService.GetFlightByNumber("F1", false);
    first := service.CreateBooking(alice, f, NoCreateFaults, AliceUuid, now);
    assert f.availableSeats == 0 && db.flights["F1"].availableSeats == 0;
    second := service.CreateBooking(bob, f, NoCreateFaults, BobUuid, now);
    stored := db.flights["F1"].availableSeats;
  }

  /** Alice books the only seat, then cancels: the release is made on a
      flight rebuilt with its seat free, so nothing is incremented, and the
      count written back is the total. A second cancel of the same id fails. */
  method BookThenCancelTwice() returns (cancelled: bool, again: bool, stored: int)
    ensures cancelled && !again && stored == 1
  {
    var db := OneSeatStore();
    var service := OpenServices(db);
    var alice := new User.Customer("alice", "pw", "Alice", "a@x");
    var now := DateTime(19990, 0);

    UuidPrefixes();
    var f := service.flightService.GetFlightByNumber("F1", false);
    var made := service.CreateBooking(alice, f, NoCreateFaults, AliceUuid, now);
    assert made.Created?;
    assert db.bookings["0a1b2c3d"].userId == "alice" && db.bookings["0a1b2c3d"].flightNumber == "F1";
    assert db.flights["F1"].totalSeats == 1;
    cancelled := service.CancelBooking("0a1b2c3d", alice, NoCancelFaults);
    again := service.CancelBooking("0a1b2c3d", alice, NoCancelFaults);
    stored := db.flights["F1"].availableSeats;
  }
}
