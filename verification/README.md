# Railway booking front-end: a Dafny model of its booking logic

This project models the logic of a railway-reservation web front-end. The
front-end lets a signed-in user search trains between two stations, book a
ticket for up to six passengers, list their own bookings and cancel one. It
also carries a mock "Indian Railways" data provider. Every piece is written
as pure functions over immutable datatypes:

- `Base`: `Option` and `Result`, plus generic filtering and first-match
  search in the manner of `Array.prototype.filter`, `findIndex` and `find`.
  It also holds an ordering helper and decimal text for integers.
- `Types`: the records of `src/types/index.ts`.
  - `Station`, `Train` (seat count optional), `Passenger`,
    `PassengerWithSeat`, `Booking`, `SearchParams` and `BookingRequest`.
  - A three-valued booking `Status`: CONFIRMED, WAITING and CANCELLED.
- `Api`: the in-memory booking service of `src/services/api.ts`.
  - The fixed catalogue of eight stations and three trains.
  - The directional search.
  - The booking ledger with its book, list and cancel calls.
  - The ledger is an explicit `seq<Booking>` that each call takes and hands
    back, so a call is one atomic state transition.
  - `Replay` runs any sequence of calls, and the invariants are proved over
    every such history.
- `BookingForm`: the booking form (`src/components/BookingForm.tsx`).
  - The passenger-list editor and the ordered validation messages.
  - The fare table and the total.
  - The class menu, which depends on the train type.
  - The submit guard.
- `TrainSearch`: the search form (`src/components/TrainSearch.tsx`). It
  covers the checks before a search, how the outcome is stored, the station
  swap, single-field edits and the "Book Now" / "Join Waitlist" label.
- `BookingHistory`: the booking-history view
  (`src/components/BookingHistory.tsx`).
  - Loading the list, and the local update after a cancellation.
  - Which bookings offer a cancel button.
  - The seat and waiting-list labels, and the display defaults.
- `RailwayApi`: the mock data provider (`src/services/railwayApi.ts`).
  - Code-to-name lookups with fallbacks.
  - The 54-entry station list.
  - A train search that echoes its arguments.
  - A fixed ten-stop schedule.

Some behaviour of the code that the model follows as written:

- `bookTicket` always records CONFIRMED. It consults no seat count, makes no
  waiting-list decision and stores no fare.
- It does not store the selected class either. The history view therefore
  shows "Sleeper" for every booking the service makes
  (`BookingHistory.BookedShowsSleeperAndCount`).
- It does not check the passenger count and does not check that a new PNR
  is unused.
- `src/types/index.ts` declares the status as CONFIRMED or CANCELLED only.
  The history view also tests for WAITING, so the model carries all three.
  The service never produces WAITING (`Api.ReplayKeepsInvariants`).
- The booking form and the history view read `train_type`,
  `booking_class` and `total_amount`, which the declared types do not
  have. The model gives `Train` and `Booking` these fields as options.
  The service sets neither `booking_class` nor `total_amount`, so every
  booking in the history, the initial one included, shows an amount of
  "0" (`BookingHistory.ListedAmountsAreZero`). The catalogue trains carry
  no train type, so the premium class menu is never offered for them
  (`BookingForm.CatalogueTrainsGetStandardMenu`).

## Model

| member | source | states |
|---|---|---|
| Api.SearchTrains | src/services/api.ts:97-104 | every train returned is a catalogue train whose source and destination ids belong to the first stations carrying the requested codes, and every catalogue train on that route is returned |
| Api.SearchMatchesRoute | src/services/api.ts:97-104 | when station codes are unique, a train is in the search result exactly when it is in the catalogue and some station with the "from" code has its source id and some station with the "to" code its destination id |
| Api.StationFoundIsTheCoded | src/services/api.ts:98-99 | with unique codes, the station lookup by code finds the one station carrying that code |
| Api.UnknownCodeFindsNothing | src/services/api.ts:98-103 | if either code names no station the search returns nothing, as an undefined id equals no train's id |
| Api.SearchIgnoresDate | src/services/api.ts:94-104 | the travel date has no effect on the search result |
| Api.MockStationCodesUnique | src/services/api.ts:4-13 | the eight catalogue stations have pairwise distinct codes |
| Api.MockSearchTrainByTrain | src/services/api.ts:15-46 | over the catalogue, the search keeps each of the three trains, in catalogue order, exactly when it is on the route |
| Api.DirectionalSearch | src/services/api.ts:97-104 | NDLS to MMCT finds exactly train 1, and MMCT to NDLS finds nothing |
| Api.NumberPassengers | src/services/api.ts:122-126 | the i-th passenger (from 0) keeps its details and gets passenger id and seat number i + 1 |
| Api.SeatsDistinctAndConsecutive | src/services/api.ts:122-126 | seat numbers within a booking are pairwise distinct and run 1..n |
| Api.BookTicket | src/services/api.ts:108-132 | one booking is appended and the old ones are untouched; the PNR is "PNR" plus the token; the id is the old length + 1; user, train and travel date are copied; status is CONFIRMED; the train is found iff the catalogue has that id; the passengers are numbered 1..n; no class and no amount is stored; the message is "Booking successful!" |
| Api.GetUserBookings | src/services/api.ts:135-138 | the result holds exactly the ledger's bookings owned by the user, whatever their status |
| Api.BookingJoinsOwnersList | src/services/api.ts:129 | after a booking, the owner's list is the old list plus the new booking at its end, and every other user's list is unchanged |
| Api.CancelTicket | src/services/api.ts:141-153 | fails with "Booking not found or unauthorized" exactly when no booking matches both PNR and user; otherwise only the first match becomes CANCELLED and the message names the PNR |
| Api.CancelIdempotent | src/services/api.ts:143-150 | cancelling the same PNR for the same user a second time succeeds with the same ledger and message |
| Api.CancelTouchesOnlyOwnBooking | src/services/api.ts:147-148 | after a cancellation, every booking is unchanged or is a booking of that user with that PNR, now CANCELLED |
| Api.PerformKeepsInvariants | src/services/api.ts:113-129 | one call keeps booking ids 1..n in order, never creates a WAITING booking or one with an amount, and only appends or cancels |
| Api.ReplayKeepsInvariants | src/services/api.ts:108-153 | any sequence of calls keeps booking ids 1..n in order, never creates a WAITING booking or one with an amount, and only appends or cancels |
| Api.ReachableLedgersWellNumbered | src/services/api.ts:48-63 | from the initial one-booking ledger, every reachable ledger has booking ids 1..n, no WAITING booking and no booking with an amount |
| BookingForm.AddPassenger | src/components/BookingForm.tsx:38-42 | below six passengers, a blank passenger is appended after the unchanged list; at six the list is unchanged |
| BookingForm.RemovePassenger | src/components/BookingForm.tsx:44-48 | with more than one passenger and an index in range, exactly that entry is removed and the rest keep their order; otherwise nothing changes |
| BookingForm.UpdatePassenger | src/components/BookingForm.tsx:50-54 | only the addressed passenger changes, in only the addressed field; the length and every other entry are unchanged |
| BookingForm.EditsKeepCountInRange | src/components/BookingForm.tsx:38-48 | any sequence of add, remove and update actions keeps the count between 1 and 6 |
| BookingForm.EditorCountFromStart | src/components/BookingForm.tsx:22-24 | starting from the one blank passenger, the editor always lists 1 to 6 passengers |
| BookingForm.TrimEmptyIffBlank | src/components/BookingForm.tsx:58 | a name trims to nothing exactly when it is whitespace only |
| BookingForm.ValidateForm | src/components/BookingForm.tsx:56-66 | no error exactly when every passenger is valid; otherwise the error is that of the first invalid passenger, with a missing name reported before a bad age |
| BookingForm.ValidIffFieldsFilled | src/components/BookingForm.tsx:56-66 | the form is valid exactly when every name keeps something after trimming and every age is in 1..120 |
| BookingForm.InitialFormInvalid | src/components/BookingForm.tsx:22-24 | the form as it opens fails with the missing-name message |
| BookingForm.BasePrice | src/components/BookingForm.tsx:103 | a listed class costs its table fare, and any other class costs the Sleeper fare of 850; every fare is between 400 and 2500 |
| BookingForm.TotalAmount | src/components/BookingForm.tsx:104 | with 1 to 6 passengers the total lies between 400 and 15000 |
| BookingForm.TotalIsPerPassengerSum | src/components/BookingForm.tsx:103-104 | the total equals the sum of the fares the passengers pay one by one |
| BookingForm.EditorMovesTotalByOneFare | src/components/BookingForm.tsx:103-104 | adding a passenger raises the total by one base fare, removing one lowers it by one, and at the limit of six adding changes nothing |
| BookingForm.ClassOptions | src/components/BookingForm.tsx:169-181 | Rajdhani and Shatabdi trains offer exactly the three AC classes; every other train offers AC 3-Tier, Sleeper and General; each label shows the fare the form charges for that class |
| BookingForm.InitialClassAlwaysOffered | src/components/BookingForm.tsx:169-181 | the class selected when the form opens, AC 3-Tier, is on every menu |
| BookingForm.CatalogueTrainsGetStandardMenu | src/components/BookingForm.tsx:169 | no catalogue train counts as premium, so each one gets the standard menu |
| BookingForm.ShowsWaitingList | src/components/BookingForm.tsx:271 | the waiting-list line shows exactly when the seat count is known and zero |
| BookingForm.HandleSubmit | src/components/BookingForm.tsx:68-92 | a request is sent exactly when validation passes and a user is signed in; a validation error wins over a missing user; the request carries the user, train, date, passengers and class |
| BookingForm.SubmittedBookingWellFormed | src/components/BookingForm.tsx:68-94 | a booking made through the form has 1 to 6 passengers, each with a non-blank name and an age in 1..120, on seats 1..n |
| TrainSearch.SearchGuard | src/components/TrainSearch.tsx:50-58 | "fill in all fields" exactly when some field is empty; "cannot be the same" exactly when all are filled and the stations are equal; no complaint otherwise |
| TrainSearch.HandleSearch | src/components/TrainSearch.tsx:48-74 | a rejected search only sets the error; an accepted one stores the service's result, shows "No trains found" exactly when it is empty, and otherwise clears the error |
| TrainSearch.OpeningFormAsksForFields | src/components/TrainSearch.tsx:14-22 | the form opens with no error and no results, and a search before any field is filled only sets the "fill in all fields" error |
| TrainSearch.SearchedRouteHasDistinctEnds | src/components/TrainSearch.tsx:55-58 | a search that was not rejected has two non-empty, distinct station codes |
| TrainSearch.SwapStations | src/components/TrainSearch.tsx:76-82 | the two stations are exchanged and the date is kept |
| TrainSearch.SwapProperties | src/components/TrainSearch.tsx:76-82 | swapping twice restores the form, and a swap does not change whether the form passes the checks |
| TrainSearch.SwapReversesRoute | src/components/TrainSearch.tsx:76-82 | on the catalogue, swapping New Delhi and Mumbai Central turns the search that finds train 1 into one that finds nothing |
| TrainSearch.HandleChange | src/components/TrainSearch.tsx:84-89 | exactly the named field takes the new value, and the other two are kept |
| TrainSearch.LastChangeWins | src/components/TrainSearch.tsx:84-89 | editing the same field twice leaves only the second value |
| TrainSearch.SwapExchangesChangedField | src/components/TrainSearch.tsx:76-89 | setting "From" and then swapping equals swapping and then setting "To", and vice versa; a date edit commutes with the swap |
| TrainSearch.BookingButtonLabel | src/components/TrainSearch.tsx:270 | "Book Now" exactly when a positive seat count is known, "Join Waitlist" otherwise, including for zero or no count |
| TrainSearch.CatalogueTrainsBookable | src/components/TrainSearch.tsx:270 | every catalogue train offers "Book Now" |
| TrainSearch.ButtonAgreesWithWaitingListLine | src/components/TrainSearch.tsx:270 | a train the booking form marks "Waiting List" is offered "Join Waitlist", a train offered "Book Now" is not marked, and a train with no seat count is offered "Join Waitlist" while the form shows no waiting-list line |
| BookingHistory.LoadBookings | src/components/BookingHistory.tsx:24-36 | with a user, the view shows exactly that user's bookings and stops loading; without one, nothing changes |
| BookingHistory.NoUserKeepsSpinner | src/components/BookingHistory.tsx:24-25 | without a user, the view stays loading with an empty list |
| BookingHistory.MarkCancelled | src/components/BookingHistory.tsx:50-54 | every local booking with the PNR becomes CANCELLED; the length and all other bookings are unchanged |
| BookingHistory.MarkThenListIsListThenMark | src/components/BookingHistory.tsx:50-54 | marking and filtering by owner commute |
| BookingHistory.LocalCancelMatchesLedger | src/components/BookingHistory.tsx:47-54 | with unique PNRs, the list after a successful cancellation is what reloading from the service would show |
| BookingHistory.DoubleBooking | src/services/api.ts:110 | booking twice from the initial ledger with the same token gives two CONFIRMED bookings of that user under one PNR, as no collision check is made |
| BookingHistory.DuplicatePnrDiverges | src/components/BookingHistory.tsx:50-54 | on that reachable ledger, cancelling the shared PNR makes the service cancel only the first booking while the view marks both |
| BookingHistory.HandleCancelTicket | src/components/BookingHistory.tsx:38-60 | without a user or confirmation nothing happens; on success the service's ledger is taken and the local PNR matches are marked; on failure the list stays and the service's message is shown |
| BookingHistory.CanCancel | src/components/BookingHistory.tsx:228 | the cancel button shows exactly when the booking is not CANCELLED |
| BookingHistory.CancelledNotOfferedAgain | src/components/BookingHistory.tsx:228 | after a successful cancellation, no booking with that PNR offers the button, and the others offer it as before |
| BookingHistory.SeatLabel | src/components/BookingHistory.tsx:199 | "Waiting List" exactly when the booking is not CONFIRMED; otherwise "Seat " followed by the seat number |
| BookingHistory.FreshBookingSeatLabelsDistinct | src/components/BookingHistory.tsx:199 | a new booking labels its passengers "Seat 1", "Seat 2", ..., all distinct |
| BookingHistory.ClassShown | src/components/BookingHistory.tsx:160 | a missing or empty class shows as "Sleeper", and any other class shows as itself |
| BookingHistory.PassengerCountShown | src/components/BookingHistory.tsx:179 | a missing passenger list counts as 0, and any other list as its length |
| BookingHistory.TrainTitle | src/components/BookingHistory.tsx:130 | the train's name when it is known and non-empty, "Train " followed by the id otherwise |
| BookingHistory.AmountShown | src/components/BookingHistory.tsx:164 | the stored amount when there is one, "0" otherwise |
| BookingHistory.SourceShown | src/components/BookingHistory.tsx:172 | the train's source station name when train, station and a non-empty name are present, "Source" otherwise |
| BookingHistory.DestinationShown | src/components/BookingHistory.tsx:173 | the train's destination station name when train, station and a non-empty name are present, "Destination" otherwise |
| BookingHistory.BookedShowsSleeperAndCount | src/components/BookingHistory.tsx:160-179 | a booking from the service shows class "Sleeper", an amount of "0" and as many passengers as were requested |
| BookingHistory.ListedAmountsAreZero | src/components/BookingHistory.tsx:164 | after any sequence of service calls from the initial ledger, every booking listed for any user shows an amount of "0" |
| BookingHistory.BookedCatalogueTrainHeading | src/components/BookingHistory.tsx:130-173 | a booking of a catalogue train's id is headed by that train's name, and its route line names the catalogue stations with the train's source and destination ids |
| BookingHistory.BookedTrainFound | src/services/api.ts:120 | a booking of the i-th catalogue train's id records exactly that train, since catalogue ids are distinct |
| BookingHistory.CatalogueTrainStationsAgree | src/services/api.ts:15-46 | each catalogue train carries as its stations the catalogue stations its source and destination ids name |
| BookingHistory.BookedUnknownTrainHeading | src/components/BookingHistory.tsx:130-173 | a booking of an id no catalogue train has is headed "Train " followed by the id, with the route "Source" to "Destination" |
| RailwayApi.GetStationName | src/services/railwayApi.ts:377-389 | the listed name for the eight known codes, and the code itself for any other |
| RailwayApi.GetTrainName | src/services/railwayApi.ts:391-400 | the listed name for the five known numbers, and "Train " followed by the number for any other |
| RailwayApi.MetroNamesAgree | src/services/railwayApi.ts:67-76 | the eight metro stations carry the names the lookup gives their codes |
| RailwayApi.GetAllStations | src/services/railwayApi.ts:64-144 | the list has 54 stations, and its first eight carry the names the lookup gives their codes |
| RailwayApi.StationCodesNotUnique | src/services/railwayApi.ts:67-139 | "DLI" is the code of both Delhi Junction (index 8) and Darjeeling (index 52), and a first-match lookup by code finds only Delhi Junction |
| RailwayApi.UnknownStationNamedByCode | src/services/railwayApi.ts:388 | DLI is not a known code, so both DLI stations get the code itself as their name |
| RailwayApi.SearchTrains | src/services/railwayApi.ts:147-228 | always the five trains numbered 12301, 12002, 12626, 12951 and 22691, in that order, each carrying the requested codes and the looked-up station names, and each named by the train-name lookup |
| RailwayApi.SearchEchoesOnlyStations | src/services/railwayApi.ts:147-228 | two searches return the same trains entry by entry, differing only in the echoed station codes and names; the date has no effect |
| RailwayApi.GetTrainSchedule | src/services/railwayApi.ts:231-336 | echoes the number, names the train by the lookup, and lists at least two stops from "Source" to "Destination" |
| RailwayApi.ScheduleDistancesRead | src/services/railwayApi.ts:234-330 | every stop's distance is a decimal numeral whose value is the listed distance |
| RailwayApi.ScheduleNonDecreasing | src/services/railwayApi.ts:234-330 | along the stops, the distance and the day of travel never decrease |

## Left out

- Simulated network delays, promises and loading flags are left out. Each
  service call is one atomic transition. The "searching" flag of the search
  form is not modelled; the history view's spinner is.
- The `catch` branches of the search form, the history load and the booking
  submission are left out. The in-memory service never throws there, and
  the only failure it does raise (cancellation) is modelled.
- The PNR comes from `Math.random`, so the model takes it as a `token`
  parameter. Nothing assumes the token is six characters long or unique.
- Dates are opaque strings passed in. This covers "today" as the booking
  date, the default "tomorrow" of the search form, and every date
  formatting.
- `getSeatAvailability` in `src/services/railwayApi.ts` is left out: its
  output is chosen by `Math.random`.
- `api.getStations`, `api.login` and `api.signup` are left out. They return
  constants after a delay. The signed-in user is a parameter.
- Rendering, the PDF and image ticket export, the other components, the
  auth context and `backend/app.py` are not part of this model.
- BookingForm.TrimEmptyIffBlank: trimming is modelled with an explicit
  whitespace set. The set holds the ASCII whitespace controls, space,
  no-break space, the byte-order mark, and the line and paragraph
  separators. It does not hold the other Unicode space separators that
  `String.prototype.trim` also removes.
- BookingForm.UpdatePassenger: the age arrives as a number. The parsing
  of the age field (`parseInt(...) || 0`) is not modelled.
- RailwayApi.GetStationName: the name lookup is modelled as a finite map.
  A code equal to an inherited object property such as "constructor"
  would, in the source, find that property instead.
- RailwayApi.GetTrainName: the train-name lookup is a finite map too; a
  train number equal to an inherited object property such as "toString"
  would, in the source, find that property instead of "Train <number>".
- BookingForm.BasePrice: a class equal to an inherited object property
  such as "toString" would, in the source, yield a function and make the
  total NaN rather than cost 850. The class only ever comes from the menu
  or the initial "AC 3-Tier", and all of those are table entries.
- BookingHistory.TrainTitle: numbers (ids, ages, seat numbers) are modelled
  as unbounded integers printed in decimal. JavaScript's double-precision
  numbers, and the exponent notation it prints from 10^21 on, are not
  modelled. The same holds for BookingHistory.SeatLabel.
- BookingHistory.AmountShown: a stored amount is shown as its plain
  decimal digits. The digit grouping and locale of `toLocaleString` are
  not modelled; the service never stores an amount, so only the "0"
  default is ever shown.
- The contents of the history view's passenger table beyond its
  seat labels are not modelled.
