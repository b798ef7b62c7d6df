/** The booking service: creating a booking (register the user in the store
    if needed, take a seat, record the booking) and cancelling one (check the
    owner, delete the ledger row, release a seat), plus the ledger reads. */
module Bookings {
  import opened Model
  import opened Store
  import opened Flights

  /** The outcome of createBooking: the new booking, no booking (the Java
      null), or the IllegalArgumentException raised when the user could not
      be written to the users table. */
  datatype CreateOutcome = Created(booking: Booking) | NotCreated | UserNotCreated

  /** Which store calls of one createBooking raise an SQL error. */
  datatype CreateFaults = CreateFaults(userLookup: bool, userInsert: bool, seatWrite: bool, ledgerInsert: bool)

  /** Which store calls of one cancelBooking raise an SQL error. `bookingRead`
      covers the ledger read and the user read that rebuild the booking. */
  datatype CancelFaults = CancelFaults(bookingRead: bool, flightRead: bool, ledgerDelete: bool, seatWrite: bool)

  /** The ledger row `bookingId` can be rebuilt: it exists and both the user
      and the flight it refers to are still stored. */
  ghost predicate Resolvable(bookings: map<string, BookingRow>, users: map<string, UserRow>,
                             flights: map<string, FlightRow>, bookingId: string)
  {
    && bookingId in bookings
    && bookings[bookingId].userId in users
    && bookings[bookingId].flightNumber in flights
  }

  /** The ids of the ledger rows of one user. */
  function IdsOf(ledger: map<string, BookingRow>, username: string): set<string> {
    set id | id in ledger && ledger[id].userId == username
  }

  class BookingService {
    const db: Database
    const flightService: FlightService

    ghost predicate Valid() {
      flightService.db == db
    }

    constructor (flightService: FlightService)
      ensures this.flightService == flightService && db == flightService.db
      ensures Valid()
    {
      this.flightService := flightService;
      this.db := flightService.db;
    }

    /** Rebuilds a booking from its ledger row; null when the row is absent,
        when its user or flight is gone, or on an SQL error. The flight is
        rebuilt with every seat available. */
    method GetBookingById(bookingId: string, readFails: bool, flightReadFails: bool) returns (b: Booking?)
      requires Valid()
      ensures b != null <==> !readFails && !flightReadFails && Resolvable(db.bookings, db.users, db.flights, bookingId)
      ensures b != null ==> fresh(b) && fresh(b.user) && fresh(b.flight)
      ensures b != null ==>
                var row := db.bookings[bookingId];
                && b.bookingId == bookingId && b.status == row.status && b.bookingTime == row.bookingDate
                && b.user.username == row.userId && b.user.kind == RegularKind
                && Rebuilt(b.flight, row.flightNumber, db.flights[row.flightNumber])
    {
      if readFails || bookingId !in db.bookings {
        return null;
      }
      var row := db.bookings[bookingId];
      var user := db.FindUser(row.userId);
      var flight := flightService.GetFlightByNumber(row.flightNumber, flightReadFails);
      if user == null || flight == null {
        return null;
      }
      b := new Booking(user, flight, bookingId, row.bookingDate, row.status);
    }

    /** Every ledger row of one user, each rebuilt once, in an unspecified
        order; a row whose user or flight cannot be rebuilt yields a null
        entry. An SQL error on the query yields an empty list. */
    method GetBookingsByUsername(username: string, readFails: bool, flightReadFails: bool)
      returns (bs: seq<Booking?>, ghost ids: seq<string>)
      requires Valid()
      ensures readFails ==> bs == [] && ids == []
      ensures |ids| == |bs|
      ensures !readFails ==> (set id | id in ids) == IdsOf(db.bookings, username)
      ensures forall i, j :: 0 <= i < j < |ids| ==> ids[i] != ids[j]
      ensures forall i :: 0 <= i < |bs| ==> ids[i] in db.bookings && db.bookings[ids[i]].userId == username
      ensures forall i :: 0 <= i < |bs| ==> (bs[i] != null <==> !flightReadFails && Resolvable(db.bookings, db.users, db.flights, ids[i]))
      ensures forall i :: 0 <= i < |bs| && bs[i] != null ==>
                bs[i].bookingId == ids[i] && bs[i].user.username == username
                && bs[i].status == db.bookings[ids[i]].status
                && bs[i].bookingTime == db.bookings[ids[i]].bookingDate
                && fresh(bs[i].flight) && db.bookings[ids[i]].flightNumber in db.flights
                && Rebuilt(bs[i].flight, db.bookings[ids[i]].flightNumber, db.flights[db.bookings[ids[i]].flightNumber])
    {
      bs, ids := [], [];
      if readFails {
        return;
      }
      var rest := IdsOf(db.bookings, username);
      while rest != {}
        invariant rest <= IdsOf(db.bookings, username)
        invariant |ids| == |bs|
        invariant (set id | id in ids) == IdsOf(db.bookings, username) - rest
        invariant forall i, j :: 0 <= i < j < |ids| ==> ids[i] != ids[j]
        invariant forall i :: 0 <= i < |bs| ==> ids[i] in db.bookings && db.bookings[ids[i]].userId == username
        invariant forall i :: 0 <= i < |bs| ==> (bs[i] != null <==> !flightReadFails && Resolvable(db.bookings, db.users, db.flights, ids[i]))
        invariant forall i :: 0 <= i < |bs| && bs[i] != null ==>
                    bs[i].bookingId == ids[i] && bs[i].user.username == username
                    && bs[i].status == db.bookings[ids[i]].status
                    && bs[i].bookingTime == db.bookings[ids[i]].bookingDate
                    && fresh(bs[i].flight) && db.bookings[ids[i]].flightNumber in db.flights
                    && Rebuilt(bs[i].flight, db.bookings[ids[i]].flightNumber, db.flights[db.bookings[ids[i]].flightNumber])
        decreases rest
      {
        var id :| id in rest;
        var b := GetBookingById(id, false, flightReadFails);
        ghost var before := ids;
        bs, ids := bs + [b], ids + [id];
        assert (set x | x in ids) == (set x | x in before) + {id};
        rest := rest - {id};
      }
    }

    method GetUserBookings(user: User, readFails: bool, flightReadFails: bool)
      returns (bs: seq<Booking?>, ghost ids: seq<string>)
      requires Valid()
      ensures readFails ==> bs == [] && ids == []
      ensures |ids| == |bs|
      ensures !readFails ==> (set id | id in ids) == IdsOf(db.bookings, user.username)
      ensures forall i, j :: 0 <= i < j < |ids| ==> ids[i] != ids[j]
      ensures forall i :: 0 <= i < |bs| ==> ids[i] in db.bookings && db.bookings[ids[i]].userId == user.username
      ensures forall i :: 0 <= i < |bs| ==> (bs[i] != null <==> !flightReadFails && Resolvable(db.bookings, db.users, db.flights, ids[i]))
      ensures forall i :: 0 <= i < |bs| && bs[i] != null ==>
                bs[i].bookingId == ids[i] && bs[i].user.username == user.username
                && bs[i].status == db.bookings[ids[i]].status
                && bs[i].bookingTime == db.bookings[ids[i]].bookingDate
                && fresh(bs[i].flight) && db.bookings[ids[i]].flightNumber in db.flights
                && Rebuilt(bs[i].flight, db.bookings[ids[i]].flightNumber, db.flights[db.bookings[ids[i]].flightNumber])
    {
      bs, ids := GetBookingsByUsername(user.username, readFails, flightReadFails);
    }

    /** Books `flight` for `user`. The user is first written to the users
        table if it is not there; then a seat is taken and written; then the
        booking is recorded in the ledger and, for a customer, appended to
        the customer's own list. A failure after the seat was taken does not
        give the seat back. `uuid` is the text of the random UUID the booking
        id is cut from, `now` the current time. */
    method CreateBooking(user: User, flight: Flight, faults: CreateFaults, uuid: string, now: DateTime)
      returns (outcome: CreateOutcome)
      requires Valid() && |uuid| == 36
      modifies db, flight`availableSeats, user`bookings
      ensures Valid()
      ensures outcome.UserNotCreated? <==>
                !faults.userLookup && user.username !in old(db.users) && faults.userInsert
      ensures db.users == if !faults.userLookup && user.username !in old(db.users) && !faults.userInsert
                          then old(db.users)[user.username := UserRowOf(user)] else old(db.users)
      // the seat step is reached only past the user check
      ensures faults.userLookup || outcome.UserNotCreated? ==>
                flight.availableSeats == old(flight.availableSeats) && db.flights == old(db.flights)
      ensures !faults.userLookup && !outcome.UserNotCreated? ==>
                && flight.availableSeats == AfterBook(old(flight.availableSeats))
                && db.flights == if old(flight.availableSeats) > 0 && !faults.seatWrite
                                 then WithSeats(old(db.flights), flight.flightNumber, flight.availableSeats)
                                 else old(db.flights)
      ensures outcome.Created? <==>
                && !faults.userLookup && !outcome.UserNotCreated?
                && old(flight.availableSeats) > 0 && !faults.seatWrite
                && !faults.ledgerInsert && uuid[..8] !in old(db.bookings)
      ensures outcome.Created? ==>
                var b := outcome.booking;
                && fresh(b) && b.bookingId == uuid[..8] && b.user == user && b.flight == flight
                && b.status == Confirmed && b.bookingTime == now
                && db.bookings == old(db.bookings)[b.bookingId := BookingRowOf(b)]
      ensures !outcome.Created? ==> db.bookings == old(db.bookings)
      ensures user.bookings == if outcome.Created? && user.kind == CustomerKind
                               then old(user.bookings) + [outcome.booking] else old(user.bookings)
      ensures old(flight.Valid()) ==> flight.Valid()
    {
      if faults.userLookup {
        return NotCreated;
      }
      if user.username !in db.users {
        var created := db.InsertUser(user, faults.userInsert);
        if !created {
          return UserNotCreated;
        }
      }
      var booked := flightService.BookFlight(flight, faults.seatWrite);
      if !booked {
        return NotCreated;
      }
      var booking := new Booking.New(user, flight, uuid, now);
      var recorded := db.InsertBooking(booking, faults.ledgerInsert);
      if !recorded {
        return NotCreated;
      }
      if user.kind == CustomerKind {
        user.AddBooking(booking);
      }
      outcome := Created(booking);
    }

    /** Cancels a booking of `user`: nothing happens unless the booking can be
        rebuilt and belongs to that username; then the ledger row is deleted
        and a seat is released on the rebuilt flight. Since that flight has
        every seat free, the release writes the flight's total seat count
        back to the store. */
    method CancelBooking(bookingId: string, user: User, faults: CancelFaults) returns (ok: bool)
      requires Valid()
      modifies db
      ensures Valid()
      ensures ok <==>
                && !faults.bookingRead && !faults.flightRead && Resolvable(old(db.bookings), old(db.users), old(db.flights), bookingId)
                && old(db.bookings)[bookingId].userId == user.username
                && !faults.ledgerDelete
      ensures !ok ==> db.bookings == old(db.bookings) && db.flights == old(db.flights)
      ensures ok ==> db.bookings == old(db.bookings) - {bookingId}
      ensures ok ==>
                var number := old(db.bookings)[bookingId].flightNumber;
                db.flights == if faults.seatWrite then old(db.flights)
                              else WithSeats(old(db.flights), number, old(db.flights)[number].totalSeats)
      ensures db.users == old(db.users)
    {
      var booking := GetBookingById(bookingId, faults.bookingRead, faults.flightRead);
      if booking == null || booking.user.username != user.username {
        return false;
      }
      var deleted := db.DeleteBooking(bookingId, faults.ledgerDelete);
      if !deleted {
        return false;
      }
      flightService.CancelFlightSeat(booking.flight, faults.seatWrite);
      ok := true;
    }
  }

  /** Cancelling the same booking twice: the second call finds no ledger row
      and fails, so the flights table stays as the first call left it and no
      second seat is released. */
  method CancelTwice(service: BookingService, bookingId: string, user: User, first: CancelFaults, second: CancelFaults)
    returns (ok1: bool, ok2: bool)
    requires service.Valid()
    modifies service.db
    ensures ok1 ==> !ok2
    ensures ok1 ==> service.db.bookings == old(service.db.bookings) - {bookingId}
    ensures ok1 ==>
              && bookingId in old(service.db.bookings)
              && old(service.db.bookings)[bookingId].flightNumber in old(service.db.flights)
              && var n := old(service.db.bookings)[bookingId].flightNumber;
                 service.db.flights == if first.seatWrite then old(service.db.flights)
                                       else WithSeats(old(service.db.flights), n, old(service.db.flights)[n].totalSeats)
  {
    ok1 := service.CancelBooking(bookingId, user, first);
    ok2 := service.CancelBooking(bookingId, user, second);
  }
}
