# Flight booking: seat inventory and booking bookkeeping

A Dafny model of the core of a small Java flight-booking application:

- the seat counter of a `Flight`;
- the flight service, which changes a flight object and then writes its seat count to the store;
- the booking service, which creates and cancels bookings;
- the `Booking` and `Customer` records;
- the in-memory user registry (`AuthService`).

The relational store is modelled as three keyed tables (`Store.Database`):

- flights, keyed by flight number;
- bookings (the ledger), keyed by booking id;
- users, keyed by username.

Every SQL statement the services issue can fail. Each modelled store call takes a flag that says whether this call fails, and a failed statement changes nothing. The one exception is the user lookup `Store.Database.FindUser`: it takes no flag, and its failure is the `readFails` (or `bookingRead`) flag of the booking read that calls it. A booking operation takes one record of such flags (`CreateFaults`, `CancelFaults`).

Files:

- `model.dfy` (module `Model`): `Flight`, `User`, `Booking`, and the seat arithmetic with its lemmas.
- `store.dfy` (module `Store`): the tables, and the row-level reads and writes the DAO classes perform.
- `flights.dfy` (module `Flights`): `FlightService` and the search filter.
- `bookings.dfy` (module `Bookings`): `BookingService`.
- `auth.dfy` (module `Auth`): `AuthService`.
- `scenarios.dfy` (module `Scenarios`): concrete runs on a one-seat flight.

What the model shows about the code as written:

- **Rebuilt flights always start full.** A flight rebuilt from the store goes through the constructor, which never reads the stored available-seat count. Every such flight therefore has `availableSeats == totalSeats` (`Store.Database.FindFlight`).
- **Booking a looked-up flight always writes the total less one, when the flight has at least one seat.** However many bookings are made that way, the stored count stays at `totalSeats - 1` (`Flights.FreshBookingsStayAtTotalLessOne`, tied to the service calls by `Flights.BookLookedUpFlight`). So a one-seat flight looked up before each booking is sold twice (`Scenarios.OneSeatBookedTwice`). A flight whose total is 0 or less is refused every time, and nothing is written (`Flights.FreshBookingsWithoutSeats`).
- **Cancelling always writes the total.** `cancelBooking` releases the seat on a flight rebuilt with every seat free. The release is then a no-op on the object, and the count written back is the flight's total (`Bookings.BookingService.CancelBooking`, `Scenarios.BookThenCancelTwice`).
- **A seat is only refused on a shared object, when the flight has at least one seat.** For such a flight, a second booking is turned away only when both calls share one flight object, such as a flight taken from the search results (`Scenarios.OneSeatSharedObject`). A flight with no seats at all is refused on every call (`Flights.FreshBookingsWithoutSeats`).
- **Nothing is compensated.** If the ledger insert fails after the seat was taken, the seat is not given back. If the seat write fails, the flight object keeps its change.
- **Cancelled bookings are deleted.** A cancelled booking's row is deleted, not kept with a `CANCELLED` status.

## Model

| member | source | states |
|---|---|---|
| `Model.AfterBook` | src/model/Flight.java:103-109 | a booking takes a seat exactly when one is left, takes at most one, and never drives a non-negative count below zero |
| `Model.AfterCancel` | src/model/Flight.java:111-115 | a release adds a seat exactly when the count is below the total, adds at most one, and never lifts the count above the total |
| `Model.BookThenCancel` | src/model/Flight.java:103-115 | a successful booking followed by a release restores the original count |
| `Model.Replay` | src/model/Flight.java:103-115 | any sequence of bookings and releases keeps `0 <= available <= total` when it held at the start |
| `Model.ReplayOfBookings` | src/model/Flight.java:103-109 | n bookings in a row on `k >= 0` free seats leave `k - n` seats when `n <= k` and 0 otherwise, so exactly `min(n, k)` succeed |
| `Model.Flight.constructor` | src/model/Flight.java:18-29 | a new flight stores every given field and starts with `availableSeats == totalSeats`, so it is in range whenever the total is non-negative |
| `Model.Flight.BookSeat` | src/model/Flight.java:103-109 | returns true iff a seat was left; then the count is one less; otherwise nothing changes; only `availableSeats` may change; the seat range is preserved |
| `Model.Flight.CancelSeat` | src/model/Flight.java:111-115 | adds one seat only below the total, otherwise a no-op; only `availableSeats` may change; the seat range is preserved |
| `Model.Flight.SetTotalSeats` | src/model/Flight.java:83-85 | stores any count unchecked and changes nothing else |
| `Model.Flight.SetAvailableSeats` | src/model/Flight.java:91-93 | stores any count unchecked, so the seat range is not enforced by setters |
| `Model.User.Customer` | src/model/Customer.java:9-12 | a new customer has the given fields, role `CUSTOMER` and an empty bookings list |
| `Model.User.Admin` | src/model/Admin.java:5-7 | a new administrator has the given fields and role `ADMIN` |
| `Model.User.Regular` | src/model/RegularUser.java:8-10 | a plain user object has the given fields and role `regular` |
| `Model.User.AddBooking` | src/model/Customer.java:18-20 | appends the booking at the end, leaving earlier entries unchanged |
| `Model.User.RemoveBooking` | src/model/Customer.java:22-24 | removes the first entry that is this very booking object (reference equality), or nothing if absent |
| `Model.RemoveFirst` | src/model/Customer.java:22-24 | removal leaves the list unchanged when the element is absent, otherwise removes exactly one occurrence (length and multiset) |
| `Model.RemoveFirstAt` | src/model/Customer.java:22-24 | the occurrence removed is the first one and the rest keep their order: the result is `s[..i] + s[i+1..]` |
| `Model.Booking.New` | src/model/Booking.java:15-21 | a new booking has status `CONFIRMED`, the given user, flight and time, and an id of length 8 cut from the start of the UUID text |
| `Model.Booking.constructor` | src/model/Booking.java:23-29 | id, user, flight, date and status are stored exactly as given |
| `Model.Booking.BookingDate` | src/model/Booking.java:45-51 | the booking date and the booking time are the same value |
| `Model.Booking.SetStatus` | src/model/Booking.java:57-59 | overwrites the status only; id, user, flight and time are constants |
| `Store.WithSeats` | src/service/FlightDAO.java:104-112 | writing a seat count changes that one flight's count and nothing else, and adds no row |
| `Store.WithSeatsTwice` | src/service/FlightDAO.java:104-112 | writing the same count twice is the same as writing it once |
| `Store.Database.FindFlight` | src/service/FlightDAO.java:114-124 | a flight is found iff stored and no error; it is a new object whose fields come from the row except that `availableSeats` is the total, whatever was stored |
| `Store.Database.LoadAllFlights` | src/service/FlightDAO.java:90-102 | every stored number gives exactly one flight (no two share a number); each is a new object rebuilt from its row with all seats available; empty on error |
| `Store.LoadStep` | src/service/FlightDAO.java:90-102 | rebuilding one more stored number from its row keeps the loaded list covering exactly the numbers done so far, without repeats |
| `Store.Database.InsertFlight` | src/service/FlightDAO.java:17-47 | inserts the flight's full row, seat count included, unless the number exists or the statement fails |
| `Store.Database.UpdateFlight` | src/service/FlightDAO.java:49-65 | overwrites the row with the flight's number; no such row, no change |
| `Store.Database.DeleteFlight` | src/service/FlightDAO.java:67-74 | removes the flight's row and nothing else |
| `Store.Database.UpdateSeats` | src/service/FlightDAO.java:104-112 | on success the table becomes `WithSeats` of the old table; on failure it is unchanged |
| `Store.Database.InsertUser` | src/service/UserDAO.java:16-47 | inserts the user's row unless the name exists or the statement fails; a failure changes nothing |
| `Store.Database.FindUser` | src/service/UserDAO.java:59-82 | a stored user is rebuilt as a plain user object with the stored fields and role; absent gives null |
| `Store.Database.InsertBooking` | src/service/BookingDAO.java:24-36 | records the booking's username, flight number, time and status under its id unless the id exists or the statement fails |
| `Store.Database.DeleteBooking` | src/service/BookingDAO.java:38-45 | cancellation deletes the ledger row; deleting an absent id is not an error |
| `Flights.Search` | src/service/FlightService.java:76-83 | the result holds exactly the flights of the list with the same route ignoring case, the same departure date and a seat left |
| `Flights.SearchAppend` | src/service/FlightService.java:76-83 | searching a concatenation concatenates the searches, so results keep the list's order |
| `Flights.BookLookedUpFlight` | src/service/FlightService.java:85-97 | `n` bookings, each on a flight looked up again just before, leave the flights table exactly as `FreshBookings` describes, so the two lemmas below apply to the service itself |
| `Flights.FreshBookingsWithoutSeats` | src/service/FlightService.java:85-97 | a flight whose total is not positive is refused every time, and the table, stored count included, is unchanged |
| `Flights.FreshBookingsStayAtTotalLessOne` | src/service/FlightService.java:85-97 | any number `n >= 1` of bookings, each on a flight freshly rebuilt from the store, leaves the stored count at `totalSeats - 1` |
| `Flights.FlightService.constructor` | src/service/FlightService.java:14-22 | the service caches one flight per stored number, with no number twice; each is a new object rebuilt from its row with all seats free; a failed load caches nothing |
| `Flights.FlightService.AddFlight` | src/service/FlightService.java:24-36 | returns false and stores nothing when the number exists or a statement fails; otherwise inserts the row and returns true |
| `Flights.FlightService.UpdateFlight` | src/service/FlightService.java:38-46 | overwrites the row of the updated flight's own number and ignores its first argument; reports a failure as false |
| `Flights.FlightService.RemoveFlight` | src/service/FlightService.java:48-56 | deletes the flight row only; bookings that refer to it are left in the ledger |
| `Flights.FlightService.GetFlightByNumber` | src/service/FlightService.java:58-65 | returns null when absent or on error, otherwise a new flight object with every seat available |
| `Flights.FlightService.GetAllFlights` | src/service/FlightService.java:67-74 | reloads every stored flight once; each is a new object whose fields come from its row, except that every seat is available; empty on error |
| `Flights.FlightService.SearchFlights` | src/service/FlightService.java:76-83 | reads only the list cached at construction, never the store; returns cached flights with a seat left, and every matching cached flight |
| `Flights.FlightService.BookFlight` | src/service/FlightService.java:85-97 | with no seat left: false, and neither flight nor store changes; otherwise one seat less and that count written for the flight's number; true iff the write succeeded; a failed write leaves the object decremented |
| `Flights.FlightService.CancelFlightSeat` | src/service/FlightService.java:99-106 | applies the release, then writes the resulting count; a failed write is swallowed and the object keeps the change |
| `Bookings.BookingService.constructor` | src/service/BookingService.java:17-21 | the booking service and the flight service it uses share one store |
| `Bookings.BookingService.GetBookingById` | src/service/BookingService.java:99-106 | non-null iff no error, the row exists and its user and flight are still stored; the booking carries the row's id, time and status, and a flight rebuilt with every seat free |
| `Bookings.BookingService.GetBookingsByUsername` | src/service/BookingService.java:86-93 | one entry per ledger row of the user, each id once; an entry is null exactly when its user or flight cannot be rebuilt; otherwise its id, owner, status and time come from the row, and its flight is a new object rebuilt from the stored row with every seat free; empty on error |
| `Bookings.BookingService.GetUserBookings` | src/service/BookingService.java:95-97 | one entry per ledger row of the user's username, each id once; an entry is null exactly when its user or flight cannot be rebuilt; otherwise its id, owner, status and time come from the row, and its flight is a new object rebuilt from the stored row with every seat free; empty on error |
| `Bookings.BookingService.CreateBooking` | src/service/BookingService.java:23-57 | see "CreateBooking in detail" below |
| `Bookings.BookingService.CancelBooking` | src/service/BookingService.java:59-75 | see "CancelBooking in detail" below |
| `Bookings.CancelTwice` | src/service/BookingService.java:59-75 | after a successful cancel, a second cancel of the same id returns false and the flights table stays as the first cancel left it (its total written back, unless that write failed), so no second seat is released |
| `Auth.AuthService.constructor` | src/service/AuthService.java:13-21 | starts from the loaded users with nobody logged in; afterwards a user named `admin` exists; the loaded list is kept as is when it already has one, otherwise a new administrator `admin` / `admin123` / `Administrator` / `admin@flight.com` with role `ADMIN` is appended |
| `Auth.AuthService.Login` | src/service/AuthService.java:23-31 | returns null exactly when no user has both the username and the password; otherwise the first such user, who becomes the current user; a failed login leaves the current user unchanged |
| `Auth.AuthService.Logout` | src/service/AuthService.java:33-35 | nobody is logged in afterwards |
| `Auth.AuthService.GetUserByUsername` | src/service/AuthService.java:41-48 | returns null exactly when no user has the username, otherwise the first user that has it |
| `Auth.AuthService.Register` | src/service/AuthService.java:50-63 | null and no change exactly when the username is taken; otherwise a new customer with the given fields and an empty bookings list is appended; usernames stay distinct |
| `Auth.AuthService.RegisterCustomer` | src/service/AuthService.java:65-68 | false and no change exactly when the username is taken; otherwise a new customer with the given username, password, name and email, role `CUSTOMER` and an empty bookings list is appended |
| `Auth.AuthService.RegisterAdmin` | src/service/AuthService.java:70-83 | false and no change exactly when the username is taken; otherwise a new administrator with the given fields is appended |
| `Auth.AuthService.ChangePassword` | src/service/AuthService.java:85-94 | true exactly when some user has the username and old password; then the first such user gets the new password and every other password is unchanged; no other field of any user changes |
| `Scenarios.OneSeatBookedTwice` | src/service/FlightDAO.java:114-124 | two customers who each look up a one-seat flight both get confirmed bookings; two ledger rows, stored count 0 |
| `Scenarios.OneSeatSharedObject` | src/service/FlightService.java:85-97 | two bookings on one shared flight object with one seat: the first succeeds and the second is refused |
| `Scenarios.BookThenCancelTwice` | src/service/BookingService.java:59-75 | book the only seat and cancel it: the cancel succeeds and writes the total (1) back; a second cancel fails |

### CreateBooking in detail

`Bookings.BookingService.CreateBooking` runs the user check, the seat step and the ledger insert in that order:

- **User check.** An error when checking for the user gives null (`NotCreated`). If the user is missing from the users table, it is inserted first. If that insert fails, the exception (`UserNotCreated`) escapes before any seat is taken.
- **Seat step.** If `bookFlight` refuses, the result is null and no booking is inserted.
- **Ledger insert.** On success the booking is new, `CONFIRMED`, for the given user and flight, and recorded in the ledger under its id. If the insert fails, the result is null and the seat is not given back.
- **Customer list.** The booking is appended to the user's own list only when the user is a Customer.

### CancelBooking in detail

`Bookings.BookingService.CancelBooking` returns false, and changes neither the ledger nor the seat, when any of these holds:

- the id is unknown;
- the booking cannot be rebuilt;
- the booking's username differs from the caller's;
- the delete fails.

Otherwise the ledger row is deleted, a seat is released on the rebuilt flight, and the flight's total seat count is written back (unless that write fails).

## Left out

- Price: the `double` price of a flight is not modelled.
- Date and time parsing, formatting and `LocalDateTime.now()`: a timestamp is an abstract day number plus a minute, and the current time is a parameter.
- `UUID.randomUUID()`: the UUID's 36-character text is a parameter.
- Case-insensitive comparison: it lower-cases the ASCII letters only. Java's `equalsIgnoreCase` also folds non-ASCII letters.
- Java `int` range: integers are unbounded. `bookSeat` and `cancelSeat` cannot overflow because of their guards. The setters accept any value, as in Java.
- Key constraints: the tables are taken to be keyed by flight number, booking id and username, so an insert of an existing key fails. The schema is not part of this model.
- Errors: each store call either succeeds or fails as a whole. A failed statement changes nothing. There is no partial write and no retry.
- `Store.Database.LoadAllFlights` and `Flights.FlightService.constructor`: the flights query has no ORDER BY, so flights come back, and are cached, in an unspecified order. `Flights.FlightService.SearchFlights` keeps the cached order, so its order is unspecified too.
- `Bookings.BookingService.GetBookingsByUsername`: rows come back in an unspecified order (the query has no ORDER BY). One flag makes all flight lookups in the call fail together, rather than choosing per row.
- `getAllBookings`, `getAllUsers`, `getCurrentUser`, `getUserDAO`, `Customer.getBookings` and the other getters and setters of `Flight`, `Booking` and `User` are not modelled: they are plain field reads or writes, or the same query without a filter. `Customer.getBookings` returns the live list; in the model callers read the `bookings` field, which every add and remove updates.
- Saving the users list to the store after a change in `AuthService` is not modelled. It has no effect on the in-memory list.
- `Auth.AuthService.constructor`: the users loaded from the store are a parameter, taken to have distinct usernames because the users table is keyed by username.
- `User.java` is not part of this model. The user base class is rebuilt as a record of username, password, full name, email and role. Its run-time class (Customer, Admin, or the plain user the DAO rebuilds) is a constant `kind`.
- Printing, `toString` and the role-specific menus are not modelled.
- The console and windowed front ends, and the JDBC connection code, are not modelled.
- Concurrency is not modelled. The code has no locking; each operation is modelled as one sequential step.
