/** The flight service: flight catalogue operations against the store, the
    seat operations that change a flight object and then persist its count,
    and the search over the list of flights loaded when the service starts. */
module Flights {
  import opened Model
  import opened Store

  // ---------------------------------------------------------------------------
  // Search
  // ---------------------------------------------------------------------------

  /** Lower-casing of one character; only the ASCII letters are mapped. */
  function Lower(c: char): char {
    if 'A' <= c <= 'Z' then (c as int + 32) as char else c
  }

  /** Equality of two strings when letter case is ignored. */
  predicate EqualsIgnoreCase(a: string, b: string) {
    |a| == |b| && forall i :: 0 <= i < |a| ==> Lower(a[i]) == Lower(b[i])
  }

  /** The search filter: same route ignoring case, departing on the same
      calendar day, and at least one seat left. */
  predicate Matches(f: Flight, origin: string, destination: string, date: DateTime)
    reads f
  {
    && EqualsIgnoreCase(f.origin, origin)
    && EqualsIgnoreCase(f.destination, destination)
    && LocalDate(f.departureTime) == LocalDate(date)
    && f.availableSeats > 0
  }

  /** The flights of `fs` that match, in the order of `fs`. */
  function Search(fs: seq<Flight>, origin: string, destination: string, date: DateTime): (r: seq<Flight>)
    reads fs
    ensures |r| <= |fs|
    ensures forall f :: f in r ==> f in fs && Matches(f, origin, destination, date)
    ensures forall f :: f in fs && Matches(f, origin, destination, date) ==> f in r
  {
    if fs == [] then []
    else
      var rest := Search(fs[1..], origin, destination, date);
      assert fs == [fs[0]] + fs[1..];
      if Matches(fs[0], origin, destination, date) then [fs[0]] + rest else rest
  }

  /** Searching a concatenation is searching each part in turn: the result
      keeps the order of the list searched. */
  lemma {:induction false} SearchAppend(a: seq<Flight>, b: seq<Flight>, origin: string, destination: string, date: DateTime)
    ensures Search(a + b, origin, destination, date) == Search(a, origin, destination, date) + Search(b, origin, destination, date)
  {
    if a != [] {
      assert (a + b)[1..] == a[1..] + b;
      SearchAppend(a[1..], b, origin, destination, date);
    } else {
      assert a + b == b;
    }
  }

  // ---------------------------------------------------------------------------
  // Seat writes made through freshly rebuilt flights
  // ---------------------------------------------------------------------------

  /** The flights table after `n` bookings, each made on a flight object
      freshly rebuilt from the table: every rebuilt object has all its seats
      free, so each booking writes back the total less one, and a flight
      with no seats at all is refused and nothing is written. */
  function FreshBookings(rows: map<string, FlightRow>, number: string, n: nat): map<string, FlightRow>
    requires number in rows
  {
    if n == 0 then rows
    else
      var total := rows[number].totalSeats;
      var after := if total > 0 then WithSeats(rows, number, AfterBook(total)) else rows;
      FreshBookings(after, number, n - 1)
  }

  /** However many bookings are made that way, the stored count stays at the
      total less one: bookings never run the stored count down. */
  lemma {:induction false} FreshBookingsStayAtTotalLessOne(rows: map<string, FlightRow>, number: string, n: nat)
    requires number in rows && rows[number].totalSeats > 0 && n > 0
    ensures FreshBookings(rows, number, n) == WithSeats(rows, number, rows[number].totalSeats - 1)
  {
    var after := WithSeats(rows, number, AfterBook(rows[number].totalSeats));
    if n > 1 {
      FreshBookingsStayAtTotalLessOne(after, number, n - 1);
      WithSeatsTwice(rows, number, rows[number].totalSeats - 1);
    }
  }

  /** A flight whose total is not positive is refused every time, so the
      table, stored seat count included, is left as it was. */
  lemma {:induction false} FreshBookingsWithoutSeats(rows: map<string, FlightRow>, number: string, n: nat)
    requires number in rows && rows[number].totalSeats <= 0
    ensures FreshBookings(rows, number, n) == rows
  {
    if n > 0 {
      FreshBookingsWithoutSeats(rows, number, n - 1);
    }
  }

  // ---------------------------------------------------------------------------
  // The service
  // ---------------------------------------------------------------------------

  class FlightService {
    const db: Database
    /** The flights loaded once, when the service is created. */
    var flights: seq<Flight>

    /** Loads every stored flight once; a failed load leaves an empty list. */
    constructor (db: Database, loadFails: bool)
      ensures this.db == db
      ensures loadFails ==> flights == []
      ensures !loadFails ==> Loaded(flights, db.flights)
      ensures forall f :: f in flights ==> fresh(f)
    {
      var loaded := db.LoadAllFlights(loadFails);
      this.db := db;
      this.flights := loaded;
    }

    /** Adds a flight unless its number is already stored; the loaded list is not refreshed. */
    method AddFlight(flight: Flight, lookupFails: bool, insertFails: bool) returns (ok: bool)
      modifies db`flights
      ensures ok <==> !lookupFails && flight.flightNumber !in old(db.flights) && !insertFails
      ensures db.flights == if ok then old(db.flights)[flight.flightNumber := RowOf(flight)] else old(db.flights)
    {
      if lookupFails {
        return false;
      }
      var existing := db.FindFlight(flight.flightNumber, false);
      if existing != null {
        return false;
      }
      ok := db.InsertFlight(flight, insertFails);
    }

    /** Overwrites the stored row of the updated flight's own number; the first argument is unused. */
    method UpdateFlight(flightNumber: string, updatedFlight: Flight, fails: bool) returns (ok: bool)
      modifies db`flights
      ensures ok == !fails
      ensures db.flights == if ok && updatedFlight.flightNumber in old(db.flights)
                            then old(db.flights)[updatedFlight.flightNumber := RowOf(updatedFlight)]
                            else old(db.flights)
    {
      ok := db.UpdateFlight(updatedFlight, fails);
    }

    /** Deletes the flight row; bookings that refer to it stay in the ledger. */
    method RemoveFlight(flightNumber: string, fails: bool) returns (ok: bool)
      modifies db`flights
      ensures ok == !fails
      ensures db.flights == if ok then old(db.flights) - {flightNumber} else old(db.flights)
    {
      ok := db.DeleteFlight(flightNumber, fails);
    }

    /** A flight rebuilt from the store, with every seat available; null when absent or on error. */
    method GetFlightByNumber(flightNumber: string, fails: bool) returns (f: Flight?)
      ensures f != null <==> !fails && flightNumber in db.flights
      ensures f != null ==> fresh(f) && Rebuilt(f, flightNumber, db.flights[flightNumber])
                            && f.availableSeats == f.totalSeats
    {
      f := db.FindFlight(flightNumber, fails);
    }

    /** Every stored flight, freshly rebuilt; empty on error. */
    method GetAllFlights(fails: bool) returns (fs: seq<Flight>)
      ensures fails ==> fs == []
      ensures !fails ==> Loaded(fs, db.flights)
      ensures forall f :: f in fs ==> fresh(f) && f.availableSeats == f.totalSeats
    {
      fs := db.LoadAllFlights(fails);
    }

    /** The loaded flights that match, in loaded order; the store is not consulted. */
    function SearchFlights(origin: string, destination: string, date: DateTime): (r: seq<Flight>)
      reads this, flights
      ensures forall f :: f in r ==> f in flights && f.availableSeats > 0
      ensures forall f :: f in flights && Matches(f, origin, destination, date) ==> f in r
    {
      Search(flights, origin, destination, date)
    }

    /** Takes a seat on the flight object and writes its new count. A failed
        write is reported, but the object keeps the seat taken. */
    method BookFlight(flight: Flight, writeFails: bool) returns (ok: bool)
      modifies flight`availableSeats, db`flights
      ensures ok <==> old(flight.availableSeats) > 0 && !writeFails
      ensures flight.availableSeats == AfterBook(old(flight.availableSeats))
      ensures db.flights == if old(flight.availableSeats) > 0 && !writeFails
                            then WithSeats(old(db.flights), flight.flightNumber, flight.availableSeats)
                            else old(db.flights)
      ensures old(flight.Valid()) ==> flight.Valid()
    {
      if flight.availableSeats > 0 {
        var _ := flight.BookSeat();
        ok := db.UpdateSeats(flight.flightNumber, flight.availableSeats, writeFails);
      } else {
        ok := false;
      }
    }

    /** Releases a seat on the flight object and writes its new count; a failed
        write goes unreported and the object keeps the change. */
    method CancelFlightSeat(flight: Flight, writeFails: bool)
      modifies flight`availableSeats, db`flights
      ensures flight.availableSeats == AfterCancel(old(flight.availableSeats), flight.totalSeats)
      ensures db.flights == if writeFails then old(db.flights)
                            else WithSeats(old(db.flights), flight.flightNumber, flight.availableSeats)
      ensures old(flight.Valid()) ==> flight.Valid()
    {
      flight.CancelSeat();
      var _ := db.UpdateSeats(flight.flightNumber, flight.availableSeats, writeFails);
    }
  }

  /** `n` bookings of one flight, each made on a flight object looked up
      again just before: the flights table ends as `FreshBookings` says. */
  method BookLookedUpFlight(service: FlightService, number: string, n: nat)
    requires number in service.db.flights
    modifies service.db`flights
    ensures service.db.flights == FreshBookings(old(service.db.flights), number, n)
  {
    var k := 0;
    while k < n
      invariant 0 <= k <= n
      invariant number in service.db.flights
      invariant FreshBookings(old(service.db.flights), number, n) == FreshBookings(service.db.flights, number, n - k)
    {
      var f := service.GetFlightByNumber(number, false);
      var _ := service.BookFlight(f, false);
      k := k + 1;
    }
  }
}
