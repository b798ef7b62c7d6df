/** The entities of the booking system: flights with their seat counters,
    users (customers keep a list of their bookings) and bookings. */
module Model {

  /** A timestamp, reduced to a calendar day number and a minute within that day. */
  datatype DateTime = DateTime(day: int, minute: int)

  /** The calendar date of a timestamp. */
  function LocalDate(t: DateTime): int { t.day }

  // ---------------------------------------------------------------------------
  // Seat arithmetic of a flight
  // ---------------------------------------------------------------------------

  /** The range a flight's available-seat count is meant to stay in. */
  predicate SeatsInRange(available: int, total: int) {
    0 <= available <= total
  }

  /** The available-seat count that booking one seat leaves behind. */
  function AfterBook(available: int): (r: int)
    ensures r < available <==> available > 0
    ensures r <= available && available - r <= 1
    ensures available >= 0 ==> r >= 0
  {
    if available > 0 then available - 1 else available
  }

  /** The available-seat count that releasing one seat leaves behind. */
  function AfterCancel(available: int, total: int): (r: int)
    ensures r > available <==> available < total
    ensures available <= r <= available + 1
    ensures available <= total ==> r <= total
  {
    if available < total then available + 1 else available
  }

  lemma BookThenCancel(available: int, total: int)
    requires 0 < available <= total
    ensures AfterCancel(AfterBook(available), total) == available
  {
  }

  /** One call on a flight's seat counter. */
  datatype SeatOp = BookOp | CancelOp

  function Step(op: SeatOp, available: int, total: int): int {
    match op
    case BookOp => AfterBook(available)
    case CancelOp => AfterCancel(available, total)
  }

  /** The available-seat count after a sequence of book and cancel calls. */
  function Replay(ops: seq<SeatOp>, available: int, total: int): (r: int)
    ensures SeatsInRange(available, total) ==> SeatsInRange(r, total)
  {
    if ops == [] then available else Replay(ops[1..], Step(ops[0], available, total), total)
  }

  /** n bookings in a row on a flight with `available` seats leave
      `available - n` seats when n fits, and none otherwise. */
  lemma {:induction false} ReplayOfBookings(n: nat, available: int, total: int)
    requires 0 <= available
    ensures Replay(seq(n, _ => BookOp), available, total) == if n <= available then available - n else 0
  {
    if n > 0 {
      var ops := seq(n, _ => BookOp);
      assert ops[0] == BookOp;
      assert ops[1..] == seq(n - 1, _ => BookOp);
      ReplayOfBookings(n - 1, AfterBook(available), total);
    }
  }

  // ---------------------------------------------------------------------------
  // Flight
  // ---------------------------------------------------------------------------

  /** A scheduled flight. The price is not modelled. */
  class Flight {
    var flightNumber: string
    var airline: string
    var origin: string
    var destination: string
    var departureTime: DateTime
    var arrivalTime: DateTime
    var totalSeats: int
    var availableSeats: int

    ghost predicate Valid()
      reads this
    {
      SeatsInRange(availableSeats, totalSeats)
    }

    /** Every new flight starts with all its seats available. */
    constructor (flightNumber: string, airline: string, origin: string, destination: string,
                 departureTime: DateTime, arrivalTime: DateTime, totalSeats: int)
      ensures this.flightNumber == flightNumber && this.airline == airline
      ensures this.origin == origin && this.destination == destination
      ensures this.departureTime == departureTime && this.arrivalTime == arrivalTime
      ensures this.totalSeats == totalSeats && availableSeats == totalSeats
      ensures totalSeats >= 0 ==> Valid()
    {
      this.flightNumber := flightNumber;
      this.airline := airline;
      this.origin := origin;
      this.destination := destination;
      this.departureTime := departureTime;
      this.arrivalTime := arrivalTime;
      this.totalSeats := totalSeats;
      this.availableSeats := totalSeats;
    }

    method BookSeat() returns (booked: bool)
      modifies this`availableSeats
      ensures booked <==> old(availableSeats) > 0
      ensures availableSeats == AfterBook(old(availableSeats))
      ensures old(Valid()) ==> Valid()
    {
      booked := availableSeats > 0;
      if booked {
        availableSeats := availableSeats - 1;
      }
    }

    method CancelSeat()
      modifies this`availableSeats
      ensures availableSeats == AfterCancel(old(availableSeats), totalSeats)
      ensures old(Valid()) ==> Valid()
    {
      if availableSeats < totalSeats {
        availableSeats := availableSeats + 1;
      }
    }

    /** Stores any count, unchecked: the seat range is not enforced here. */
    method SetTotalSeats(totalSeats: int)
      modifies this`totalSeats
      ensures this.totalSeats == totalSeats
    {
      this.totalSeats := totalSeats;
    }

    /** Stores any count, unchecked: the seat range is not enforced here. */
    method SetAvailableSeats(availableSeats: int)
      modifies this`availableSeats
      ensures this.availableSeats == availableSeats
    {
      this.availableSeats := availableSeats;
    }
  }

  // ---------------------------------------------------------------------------
  // Users
  // ---------------------------------------------------------------------------

  /** The run-time class of a user object: a Customer, an Admin, or the plain
      user object rebuilt from a row of the users table. */
  datatype UserKind = CustomerKind | AdminKind | RegularKind

  const CustomerRole := "CUSTOMER"
  const AdminRole := "ADMIN"
  const RegularRole := "regular"

  /** A user account. `bookings` is the Customer's own list of bookings;
      the other kinds have no such list and leave it empty. */
  class User {
    var username: string
    var password: string
    var fullName: string
    var email: string
    var role: string
    const kind: UserKind
    var bookings: seq<Booking>

    constructor Customer(username: string, password: string, name: string, email: string)
      ensures this.username == username && this.password == password
      ensures fullName == name && this.email == email
      ensures role == CustomerRole && kind == CustomerKind && bookings == []
    {
      this.username := username;
      this.password := password;
      this.fullName := name;
      this.email := email;
      this.role := CustomerRole;
      this.kind := CustomerKind;
      this.bookings := [];
    }

    constructor Admin(username: string, password: string, name: string, email: string)
      ensures this.username == username && this.password == password
      ensures fullName == name && this.email == email
      ensures role == AdminRole && kind == AdminKind && bookings == []
    {
      this.username := username;
      this.password := password;
      this.fullName := name;
      this.email := email;
      this.role := AdminRole;
      this.kind := AdminKind;
      this.bookings := [];
    }

    constructor Regular(username: string, password: string, name: string, email: string)
      ensures this.username == username && this.password == password
      ensures fullName == name && this.email == email
      ensures role == RegularRole && kind == RegularKind && bookings == []
    {
      this.username := username;
      this.password := password;
      this.fullName := name;
      this.email := email;
      this.role := RegularRole;
      this.kind := RegularKind;
      this.bookings := [];
    }

    /** Appends at the end; earlier entries stay as they were. */
    method AddBooking(booking: Booking)
      requires kind == CustomerKind
      modifies this`bookings
      ensures bookings == old(bookings) + [booking]
    {
      bookings := bookings + [booking];
    }

    /** Removes the first entry that is this very booking object, if any. */
    method RemoveBooking(booking: Booking)
      requires kind == CustomerKind
      modifies this`bookings
      ensures bookings == RemoveFirst(old(bookings), booking)
    {
      bookings := RemoveFirst(bookings, booking);
    }
  }

  /** `s` without its first occurrence of `x` (unchanged if `x` is absent). */
  function RemoveFirst<T(==)>(s: seq<T>, x: T): (r: seq<T>)
    ensures x !in s ==> r == s
    ensures x in s ==> |r| == |s| - 1
    ensures multiset(r) == multiset(s) - multiset{x}
  {
    if s == [] then []
    else
      assert s == [s[0]] + s[1..];
      if s[0] == x then s[1..] else [s[0]] + RemoveFirst(s[1..], x)
  }

  /** Removal takes out exactly the first occurrence and keeps the order of the rest. */
  lemma {:induction false} RemoveFirstAt<T>(s: seq<T>, x: T, i: nat)
    requires i < |s| && s[i] == x && x !in s[..i]
    ensures RemoveFirst(s, x) == s[..i] + s[i + 1..]
  {
    if i > 0 {
      assert s[0] in s[..i];
      assert s[1..][..i - 1] == s[1..i];
      RemoveFirstAt(s[1..], x, i - 1);
      assert s[1..][i..] == s[i + 1..];
      assert [s[0]] + s[1..i] == s[..i];
    }
  }

  // ---------------------------------------------------------------------------
  // Booking
  // ---------------------------------------------------------------------------

  const Confirmed := "CONFIRMED"

  /** A booking of one user on one flight. Only the status can change. */
  class Booking {
    const bookingId: string
    const user: User
    const flight: Flight
    const bookingTime: DateTime
    var status: string

    /** A fresh booking: its id is the first eight characters of `uuid`, the
        36-character text of a random UUID, and it is stamped with `now`. */
    constructor New(user: User, flight: Flight, uuid: string, now: DateTime)
      requires |uuid| == 36
      ensures bookingId == uuid[..8] && |bookingId| == 8
      ensures this.user == user && this.flight == flight
      ensures bookingTime == now && status == Confirmed
    {
      this.bookingId := uuid[..8];
      this.user := user;
      this.flight := flight;
      this.bookingTime := now;
      this.status := Confirmed;
    }

    /** A booking rebuilt from stored values, taken exactly as given. */
    constructor (user: User, flight: Flight, bookingId: string, bookingDate: DateTime, status: string)
      ensures this.bookingId == bookingId && this.user == user && this.flight == flight
      ensures bookingTime == bookingDate && this.status == status
    {
      this.bookingId := bookingId;
      this.user := user;
      this.flight := flight;
      this.bookingTime := bookingDate;
      this.status := status;
    }

    function BookingTime(): DateTime {
      bookingTime
    }

    /** The booking date is the booking time under another name. */
    function BookingDate(): (d: DateTime)
      ensures d == BookingTime()
    {
      bookingTime
    }

    method SetStatus(status: string)
      modifies this`status
      ensures this.status == status
    {
      this.status := status;
    }
  }
}
