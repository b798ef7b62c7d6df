/** The relational store behind the services, as three keyed tables, and the
    row-level operations the services issue against it. Any statement can
    raise an SQL error; each operation takes a `fails` flag that says whether
    this call does, and a failed statement changes nothing. The user lookup
    `FindUser` takes none: its failure is the `readFails` flag of the booking
    read that calls it. */
module Store {
  import opened Model

  /** A row of the flights table, keyed by flight number. The price column is not modelled. */
  datatype FlightRow = FlightRow(airline: string, origin: string, destination: string,
                                 departure: DateTime, arrival: DateTime,
                                 totalSeats: int, availableSeats: int)

  /** A row of the bookings table, keyed by booking id. */
  datatype BookingRow = BookingRow(userId: string, flightNumber: string, bookingDate: DateTime, status: string)

  /** A row of the users table, keyed by username. */
  datatype UserRow = UserRow(password: string, email: string, fullName: string, role: string)

  /** The flights table after the available-seat column of one flight is overwritten. */
  function WithSeats(rows: map<string, FlightRow>, number: string, seats: int): (r: map<string, FlightRow>)
    ensures r.Keys == rows.Keys
    ensures number in rows ==> r[number].availableSeats == seats
    ensures number in rows ==> r[number] == rows[number].(availableSeats := seats)
    ensures forall k :: k in rows && k != number ==> r[k] == rows[k]
  {
    if number in rows then rows[number := rows[number].(availableSeats := seats)] else rows
  }

  /** Overwriting the same count twice is the same as overwriting it once. */
  lemma WithSeatsTwice(rows: map<string, FlightRow>, number: string, seats: int)
    ensures WithSeats(WithSeats(rows, number, seats), number, seats) == WithSeats(rows, number, seats)
  {
  }

  /** The row written for a flight: every column, the current seat count included. */
  function RowOf(f: Flight): FlightRow
    reads f
  {
    FlightRow(f.airline, f.origin, f.destination, f.departureTime, f.arrivalTime,
              f.totalSeats, f.availableSeats)
  }

  /** `f` is the object rebuilt from `row`: every column is copied except the
      available-seat count, which the constructor sets to the total. */
  ghost predicate Rebuilt(f: Flight, number: string, row: FlightRow)
    reads f
  {
    && f.flightNumber == number
    && f.airline == row.airline && f.origin == row.origin && f.destination == row.destination
    && f.departureTime == row.departure && f.arrivalTime == row.arrival
    && f.totalSeats == row.totalSeats
    && f.availableSeats == row.totalSeats
  }

  /** Every number stored in `rows` is the number of some flight of `fs`. */
  ghost predicate Covers(fs: seq<Flight>, rows: map<string, FlightRow>)
    reads fs
  {
    forall k :: k in rows ==> exists i :: 0 <= i < |fs| && fs[i].flightNumber == k
  }

  /** No two flights of `fs` carry the same flight number. */
  ghost predicate DistinctNumbers(fs: seq<Flight>)
    reads fs
  {
    forall i, j :: 0 <= i < j < |fs| ==> fs[i].flightNumber != fs[j].flightNumber
  }

  /** Every flight of `fs` is the object rebuilt from the stored row of its own number. */
  ghost predicate RebuiltFrom(fs: seq<Flight>, rows: map<string, FlightRow>)
    reads fs
  {
    forall f :: f in fs ==> f.flightNumber in rows && Rebuilt(f, f.flightNumber, rows[f.flightNumber])
  }

  /** `fs` is what loading the flights table `rows` gives: one flight per
      stored number, each rebuilt from that number's row. */
  ghost predicate Loaded(fs: seq<Flight>, rows: map<string, FlightRow>)
    reads fs
  {
    Covers(fs, rows) && DistinctNumbers(fs) && RebuiltFrom(fs, rows)
  }

  /** `fs` is what loading the flights table `rows` gives once the numbers in
      `rest` are still to be loaded. */
  ghost predicate LoadedSoFar(fs: seq<Flight>, rows: map<string, FlightRow>, rest: set<string>)
    reads fs
  {
    && rest <= rows.Keys
    && (forall k :: k in rows && k !in rest ==> exists i :: 0 <= i < |fs| && fs[i].flightNumber == k)
    && (forall i :: 0 <= i < |fs| ==> fs[i].flightNumber !in rest)
    && DistinctNumbers(fs) && RebuiltFrom(fs, rows)
  }

  /** Loading one more stored number, rebuilt from its row, keeps `LoadedSoFar`. */
  lemma {:induction false} LoadStep(fs: seq<Flight>, f: Flight, rows: map<string, FlightRow>, rest: set<string>, number: string)
    requires LoadedSoFar(fs, rows, rest) && number in rest
    requires Rebuilt(f, number, rows[number])
    ensures LoadedSoFar(fs + [f], rows, rest - {number})
  {
    var after := fs + [f];
    forall k | k in rows && k !in rest - {number}
      ensures exists i :: 0 <= i < |after| && after[i].flightNumber == k
    {
      if k == number {
        assert after[|fs|].flightNumber == k;
      } else {
        var i :| 0 <= i < |fs| && fs[i].flightNumber == k;
        assert after[i] == fs[i];
      }
    }
    assert forall i :: 0 <= i < |fs| ==> after[i] == fs[i];
  }

  /** The row written for a new booking. */
  function BookingRowOf(b: Booking): BookingRow
    reads b.user, b.flight, b
  {
    BookingRow(b.user.username, b.flight.flightNumber, b.bookingTime, b.status)
  }

  /** The row written for a new user. */
  function UserRowOf(u: User): UserRow
    reads u
  {
    UserRow(u.password, u.email, u.fullName, u.role)
  }

  /** The whole persistent state: flights, the booking ledger and the users table. */
  class Database {
    var flights: map<string, FlightRow>
    var bookings: map<string, BookingRow>
    var users: map<string, UserRow>

    constructor (flights: map<string, FlightRow>, bookings: map<string, BookingRow>, users: map<string, UserRow>)
      ensures this.flights == flights && this.bookings == bookings && this.users == users
    {
      this.flights := flights;
      this.bookings := bookings;
      this.users := users;
    }

    /** Looks a flight up by number and rebuilds it; the stored available-seat
        count is never read, so the result always has every seat free. */
    method FindFlight(number: string, fails: bool) returns (f: Flight?)
      ensures f != null <==> !fails && number in flights
      ensures f != null ==> fresh(f) && Rebuilt(f, number, flights[number])
    {
      if fails || number !in flights {
        return null;
      }
      var row := flights[number];
      f := new Flight(number, row.airline, row.origin, row.destination, row.departure, row.arrival, row.totalSeats);
    }

    /** Rebuilds every stored flight, each exactly once, in an unspecified order. */
    method LoadAllFlights(fails: bool) returns (fs: seq<Flight>)
      ensures fails ==> fs == []
      ensures !fails ==> Loaded(fs, flights)
      ensures forall f :: f in fs ==> fresh(f)
    {
      fs := [];
      if fails {
        return;
      }
      var rest := flights.Keys;
      while rest != {}
        invariant LoadedSoFar(fs, flights, rest)
        invariant forall f :: f in fs ==> fresh(f)
        decreases rest
      {
        var number :| number in rest;
        var row := flights[number];
        var f := new Flight(number, row.airline, row.origin, row.destination, row.departure, row.arrival, row.totalSeats);
        LoadStep(fs, f, flights, rest, number);
        fs := fs + [f];
        rest := rest - {number};
      }
    }

    /** Inserts a new flight row; an existing flight number is a key violation. */
    method InsertFlight(f: Flight, fails: bool) returns (ok: bool)
      modifies this`flights
      ensures ok <==> !fails && f.flightNumber !in old(flights)
      ensures flights == if ok then old(flights)[f.flightNumber := RowOf(f)] else old(flights)
    {
      ok := !fails && f.flightNumber !in flights;
      if ok {
        flights := flights[f.flightNumber := RowOf(f)];
      }
    }

    /** Overwrites every column of the row with the flight's number; no such row, no change. */
    method UpdateFlight(f: Flight, fails: bool) returns (ok: bool)
      modifies this`flights
      ensures ok == !fails
      ensures flights == if ok && f.flightNumber in old(flights) then old(flights)[f.flightNumber := RowOf(f)] else old(flights)
    {
      ok := !fails;
      if ok && f.flightNumber in flights {
        flights := flights[f.flightNumber := RowOf(f)];
      }
    }

    method DeleteFlight(number: string, fails: bool) returns (ok: bool)
      modifies this`flights
      ensures ok == !fails
      ensures flights == if ok then old(flights) - {number} else old(flights)
    {
      ok := !fails;
      if ok {
        flights := flights - {number};
      }
    }

    /** Overwrites the available-seat count of one flight; no such row, no change. */
    method UpdateSeats(number: string, seats: int, fails: bool) returns (ok: bool)
      modifies this`flights
      ensures ok == !fails
      ensures flights == if ok then WithSeats(old(flights), number, seats) else old(flights)
    {
      ok := !fails;
      if ok {
        flights := WithSeats(flights, number, seats);
      }
    }

    /** Inserts a user row; an existing username is a key violation. */
    method InsertUser(u: User, fails: bool) returns (ok: bool)
      modifies this`users
      ensures ok <==> !fails && u.username !in old(users)
      ensures users == if ok then old(users)[u.username := UserRowOf(u)] else old(users)
    {
      ok := !fails && u.username !in users;
      if ok {
        users := users[u.username := UserRowOf(u)];
      }
    }

    /** Rebuilds a user from its row as a plain user object carrying the stored role. */
    method FindUser(username: string) returns (u: User?)
      ensures u != null <==> username in users
      ensures u != null ==> fresh(u) && u.kind == RegularKind && u.username == username
                            && UserRowOf(u) == users[username] && u.bookings == []
    {
      if username !in users {
        return null;
      }
      var row := users[username];
      u := new User.Regular(username, row.password, row.fullName, row.email);
      u.role := row.role;
    }

    /** Inserts a booking row; an existing booking id is a key violation. */
    method InsertBooking(b: Booking, fails: bool) returns (ok: bool)
      modifies this`bookings
      ensures ok <==> !fails && b.bookingId !in old(bookings)
      ensures bookings == if ok then old(bookings)[b.bookingId := BookingRowOf(b)] else old(bookings)
    {
      ok := !fails && b.bookingId !in bookings;
      if ok {
        bookings := bookings[b.bookingId := BookingRowOf(b)];
      }
    }

    /** Deletes a booking row; deleting an absent id is not an error. */
    method DeleteBooking(bookingId: string, fails: bool) returns (ok: bool)
      modifies this`bookings
      ensures ok == !fails
      ensures bookings == if ok then old(bookings) - {bookingId} else old(bookings)
    {
      ok := !fails;
      if ok {
        bookings := bookings - {bookingId};
      }
    }
  }
}
