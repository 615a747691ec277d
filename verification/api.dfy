/**
  The in-memory booking service of the front-end (src/services/api.ts): a
  fixed station and train catalogue, a directional train search over it, and
  a booking ledger that books, lists and cancels tickets.

  Every service call is one atomic state transition: the ledger is an
  explicit `seq<Booking>` passed in and handed back, the simulated network
  delays are left out, and the random PNR token and today's date are
  parameters.
 */
module Api {
  import opened Base
  import opened Types

  /** The stations and trains a search runs over. */
  datatype Catalogue = Catalogue(stations: seq<Station>, trains: seq<Train>)

  const MockStations: seq<Station> := [
    Station(1, "New Delhi", "NDLS"),
    Station(2, "Mumbai Central", "MMCT"),
    Station(3, "Chennai Central", "MAS"),
    Station(4, "Kolkata", "KOAA"),
    Station(5, "Bangalore", "SBC"),
    Station(6, "Hyderabad", "SC"),
    Station(7, "Pune", "PUNE"),
    Station(8, "Ahmedabad", "ADI")
  ]

  const MockTrains: seq<Train> := [
    Train(1, "Rajdhani Express", 1, 2, 200, Some(45), None,
          Some(MockStations[0]), Some(MockStations[1])),
    Train(2, "Shatabdi Express", 1, 3, 150, Some(82), None,
          Some(MockStations[0]), Some(MockStations[2])),
    Train(3, "Duronto Express", 2, 4, 180, Some(23), None,
          Some(MockStations[1]), Some(MockStations[3]))
  ]

  const MockCatalogue := Catalogue(MockStations, MockTrains)

  /** The ledger as the module starts: one confirmed booking of user 1. */
  const InitialLedger: seq<Booking> := [
    Booking(1, "PNR123456", 1, 1, "2025-01-15", "2025-01-25", Confirmed,
            Some(MockTrains[0]),
            Some([PassengerWithSeat(Passenger("John Doe", 30, "Male"), 1, 1),
                  PassengerWithSeat(Passenger("Jane Doe", 28, "Female"), 2, 2)]),
            None, None)
  ]

  const PnrPrefix := "PNR"
  const NotFoundMessage := "Booking not found or unauthorized"

  /* ----------------------------------------------------------------------
     Train search
     ---------------------------------------------------------------------- */

  /** The first station with the given code, if any. */
  function FindStation(stations: seq<Station>, code: string): Option<Station> {
    Find(stations, (s: Station) => s.code == code)
  }

  /** Whether `t` runs from the station found for `params.from` to the one
      found for `params.to`. A code naming no station finds nothing, and
      then no train matches, as an undefined id equals no numeric id. */
  predicate OnRoute(cat: Catalogue, params: SearchParams, t: Train) {
    var from := FindStation(cat.stations, params.from);
    var to := FindStation(cat.stations, params.to);
    from.Some? && to.Some?
    && t.sourceStationId == from.value.id
    && t.destinationStationId == to.value.id
  }

  /** The catalogue trains on the requested route, in catalogue order. */
  function SearchTrains(cat: Catalogue, params: SearchParams): (r: seq<Train>)
    ensures forall i | 0 <= i < |r| :: r[i] in cat.trains && OnRoute(cat, params, r[i])
    ensures forall i | 0 <= i < |cat.trains| ::
      OnRoute(cat, params, cat.trains[i]) ==> cat.trains[i] in r
  {
    Filter(cat.trains, (t: Train) => OnRoute(cat, params, t))
  }

  predicate UniqueCodes(stations: seq<Station>) {
    forall i, j | 0 <= i < j < |stations| :: stations[i].code != stations[j].code
  }

  /** Reference reading of a route: some station coded `from` has the
      train's source id and some station coded `to` its destination id. */
  predicate ServesRoute(stations: seq<Station>, t: Train, from: string, to: string) {
    (exists i | 0 <= i < |stations| ::
       stations[i].code == from && stations[i].id == t.sourceStationId)
    && (exists j | 0 <= j < |stations| ::
       stations[j].code == to && stations[j].id == t.destinationStationId)
  }

  lemma StationFoundIsTheCoded(stations: seq<Station>, code: string, k: nat)
    requires UniqueCodes(stations)
    requires k < |stations| && stations[k].code == code
    ensures FindStation(stations, code) == Some(stations[k])
  {
    var r := FindStation(stations, code);
    assert r.Some?;
    var i :| 0 <= i < |stations| && stations[i] == r.value && stations[i].code == code;
    if i < k {
      assert stations[i].code != stations[k].code;
    } else if k < i {
      assert stations[k].code != stations[i].code;
    }
  }

  /** When station codes are unique, the search keeps exactly the trains
      whose source and destination ids belong to the stations carrying the
      requested codes. */
  lemma SearchMatchesRoute(cat: Catalogue, params: SearchParams, t: Train)
    requires UniqueCodes(cat.stations)
    ensures t in SearchTrains(cat, params)
        <==> t in cat.trains && ServesRoute(cat.stations, t, params.from, params.to)
  {
    var r := SearchTrains(cat, params);
    if t in r {
      var from := FindStation(cat.stations, params.from);
      var to := FindStation(cat.stations, params.to);
      var k :| 0 <= k < |r| && r[k] == t;
      assert OnRoute(cat, params, r[k]);
      var i :| 0 <= i < |cat.stations| && cat.stations[i] == from.value && cat.stations[i].code == params.from;
      var j :| 0 <= j < |cat.stations| && cat.stations[j] == to.value && cat.stations[j].code == params.to;
      assert cat.stations[i].id == t.sourceStationId;
      assert cat.stations[j].id == t.destinationStationId;
    }
    if t in cat.trains && ServesRoute(cat.stations, t, params.from, params.to) {
      var i :| 0 <= i < |cat.stations| && cat.stations[i].code == params.from
               && cat.stations[i].id == t.sourceStationId;
      var j :| 0 <= j < |cat.stations| && cat.stations[j].code == params.to
               && cat.stations[j].id == t.destinationStationId;
      StationFoundIsTheCoded(cat.stations, params.from, i);
      StationFoundIsTheCoded(cat.stations, params.to, j);
      var k :| 0 <= k < |cat.trains| && cat.trains[k] == t;
      assert OnRoute(cat, params, cat.trains[k]);
    }
  }

  /** A code that names no station makes the search come back empty. */
  lemma UnknownCodeFindsNothing(cat: Catalogue, params: SearchParams)
    requires (forall i | 0 <= i < |cat.stations| :: cat.stations[i].code != params.from)
          || (forall i | 0 <= i < |cat.stations| :: cat.stations[i].code != params.to)
    ensures SearchTrains(cat, params) == []
  {
    var r := SearchTrains(cat, params);
    assert |r| == 0 || !OnRoute(cat, params, r[0]);
  }

  /** The date plays no part in the search. */
  lemma SearchIgnoresDate(cat: Catalogue, from: string, to: string, d1: string, d2: string)
    ensures SearchTrains(cat, SearchParams(from, to, d1)) == SearchTrains(cat, SearchParams(from, to, d2))
  {
    FilterCongruent(cat.trains,
      (t: Train) => OnRoute(cat, SearchParams(from, to, d1), t),
      (t: Train) => OnRoute(cat, SearchParams(from, to, d2), t));
  }

  lemma MockStationCodesUnique()
    ensures UniqueCodes(MockStations)
  {
  }

  /** Over the service's catalogue, a search keeps each of the three
      trains, in order, exactly when it is on the route. */
  lemma MockSearchTrainByTrain(params: SearchParams)
    ensures var p := (t: Train) => OnRoute(MockCatalogue, params, t);
      SearchTrains(MockCatalogue, params)
        == (if p(MockTrains[0]) then [MockTrains[0]] else [])
         + (if p(MockTrains[1]) then [MockTrains[1]] else [])
         + (if p(MockTrains[2]) then [MockTrains[2]] else [])
  {
    var p := (t: Train) => OnRoute(MockCatalogue, params, t);
    var a, b, c := [MockTrains[0]], [MockTrains[1]], [MockTrains[2]];
    assert MockTrains == a + b + c;
    FilterAppend(a + b, c, p);
    FilterAppend(a, b, p);
    FilterSingleton(MockTrains[0], p);
    FilterSingleton(MockTrains[1], p);
    FilterSingleton(MockTrains[2], p);
  }

  /** Search is directional: New Delhi to Mumbai Central finds train 1, the
      reverse direction finds nothing. */
  lemma DirectionalSearch(date: string)
    ensures SearchTrains(MockCatalogue, SearchParams("NDLS", "MMCT", date)) == [MockTrains[0]]
    ensures SearchTrains(MockCatalogue, SearchParams("MMCT", "NDLS", date)) == []
  {
    MockStationCodesUnique();
    StationFoundIsTheCoded(MockStations, "NDLS", 0);
    StationFoundIsTheCoded(MockStations, "MMCT", 1);
    MockSearchTrainByTrain(SearchParams("NDLS", "MMCT", date));
    MockSearchTrainByTrain(SearchParams("MMCT", "NDLS", date));
  }

  /* ----------------------------------------------------------------------
     Booking
     ---------------------------------------------------------------------- */

  /** The passengers of a request numbered for the ledger: the i-th (from 0)
      gets passenger id and seat number i + 1, details kept. */
  function NumberPassengers(ps: seq<Passenger>): (r: seq<PassengerWithSeat>)
    ensures |r| == |ps|
    ensures forall i | 0 <= i < |r| ::
      r[i].info == ps[i] && r[i].passengerId == i + 1 && r[i].seatNumber == i + 1
  {
    if |ps| == 0 then []
    else NumberPassengers(ps[..|ps| - 1]) + [PassengerWithSeat(ps[|ps| - 1], |ps|, |ps|)]
  }

  /** Seats within one booking are distinct and run 1, 2, ..., n. */
  lemma SeatsDistinctAndConsecutive(ps: seq<Passenger>)
    ensures var r := NumberPassengers(ps);
      (forall i, j | 0 <= i < j < |r| :: r[i].seatNumber != r[j].seatNumber)
      && (forall i | 0 <= i < |r| :: r[i].seatNumber == i + 1)
  {
  }

  /** The result of a booking call: the new ledger, and the PNR and message
      handed back. */
  datatype Booked = Booked(ledger: seq<Booking>, pnr: string, message: string)

  const BookedMessage := "Booking successful!"

  /** Books a ticket: appends one CONFIRMED booking numbered after the
      existing ones, with the PNR "PNR" followed by the `token` drawn by the
      caller. No check is made that the PNR is new, no seat count is
      consulted, and neither the class nor an amount is stored. */
  function BookTicket(cat: Catalogue, ledger: seq<Booking>, req: BookingRequest,
                      token: string, today: string): (r: Booked)
    ensures r.pnr == PnrPrefix + token && r.message == BookedMessage
    ensures |r.ledger| == |ledger| + 1 && r.ledger[..|ledger|] == ledger
    ensures var b := r.ledger[|ledger|];
      && b.bookingId == |ledger| + 1
      && b.pnr == r.pnr
      && b.userId == req.userId
      && b.trainId == req.trainId
      && b.travelDate == req.travelDate
      && b.bookingDate == today
      && b.status == Confirmed
      && b.bookingClass.None?
      && b.totalAmount.None?
    ensures var b := r.ledger[|ledger|];
      && (b.train.None? <==> forall i | 0 <= i < |cat.trains| :: cat.trains[i].id != req.trainId)
      && (b.train.Some? ==> b.train.value in cat.trains && b.train.value.id == req.trainId)
    ensures var b := r.ledger[|ledger|];
      && b.passengers.Some?
      && |b.passengers.value| == |req.passengers|
      && forall i | 0 <= i < |req.passengers| ::
           b.passengers.value[i].info == req.passengers[i]
           && b.passengers.value[i].passengerId == i + 1
           && b.passengers.value[i].seatNumber == i + 1
  {
    var pnr := PnrPrefix + token;
    var booking := Booking(
      |ledger| + 1, pnr, req.userId, req.trainId, today, req.travelDate, Confirmed,
      Find(cat.trains, (t: Train) => t.id == req.trainId),
      Some(NumberPassengers(req.passengers)),
      None, None);
    Booked(ledger + [booking], pnr, BookedMessage)
  }

  /* ----------------------------------------------------------------------
     Listing
     ---------------------------------------------------------------------- */

  /** The bookings of user `u`, in insertion order, whatever their status. */
  function GetUserBookings(ledger: seq<Booking>, u: int): (r: seq<Booking>)
    ensures forall i | 0 <= i < |r| :: r[i] in ledger && r[i].userId == u
    ensures forall i | 0 <= i < |ledger| :: ledger[i].userId == u ==> ledger[i] in r
  {
    Filter(ledger, (b: Booking) => b.userId == u)
  }

  /** A new booking shows up at the end of its owner's list and nowhere
      else: lists keep insertion order. */
  lemma BookingJoinsOwnersList(cat: Catalogue, ledger: seq<Booking>, req: BookingRequest,
                               token: string, today: string, u: int)
    ensures var after := BookTicket(cat, ledger, req, token, today).ledger;
      GetUserBookings(after, u)
        == GetUserBookings(ledger, u) + (if req.userId == u then [after[|ledger|]] else [])
  {
    var after := BookTicket(cat, ledger, req, token, today).ledger;
    assert after == ledger + [after[|ledger|]];
    FilterAppend(ledger, [after[|ledger|]], (b: Booking) => b.userId == u);
  }

  /* ----------------------------------------------------------------------
     Cancellation
     ---------------------------------------------------------------------- */

  predicate OwnedMatch(b: Booking, pnr: string, u: int) {
    b.pnr == pnr && b.userId == u
  }

  /** A successful cancellation: the new ledger and the confirmation. */
  datatype CancelReceipt = CancelReceipt(ledger: seq<Booking>, message: string)

  function CancelledMessage(pnr: string): string {
    "Ticket with PNR " + pnr + " has been cancelled."
  }

  /** Cancels the first booking that carries `pnr` and belongs to `u`; fails
      with "Booking not found or unauthorized" when there is none. A booking
      already cancelled is cancelled again without complaint. */
  function CancelTicket(ledger: seq<Booking>, pnr: string, u: int): (r: Result<CancelReceipt>)
    ensures r.Failure? <==> forall i | 0 <= i < |ledger| :: !OwnedMatch(ledger[i], pnr, u)
    ensures r.Failure? ==> r.error == NotFoundMessage
    ensures r.Success? ==> r.value.message == CancelledMessage(pnr)
    ensures r.Success? ==> exists k | 0 <= k < |ledger| ::
      && OwnedMatch(ledger[k], pnr, u)
      && (forall j | 0 <= j < k :: !OwnedMatch(ledger[j], pnr, u))
      && r.value.ledger == ledger[k := ledger[k].(status := Cancelled)]
  {
    match FirstIndex(ledger, (b: Booking) => OwnedMatch(b, pnr, u))
    case None => Failure(NotFoundMessage)
    case Some(k) =>
      Success(CancelReceipt(ledger[k := ledger[k].(status := Cancelled)], CancelledMessage(pnr)))
  }

  /** Cancelling twice is the same as cancelling once. */
  lemma CancelIdempotent(ledger: seq<Booking>, pnr: string, u: int)
    requires CancelTicket(ledger, pnr, u).Success?
    ensures var once := CancelTicket(ledger, pnr, u).value;
      CancelTicket(once.ledger, pnr, u) == Success(once)
  {
    var p := (b: Booking) => OwnedMatch(b, pnr, u);
    var once := CancelTicket(ledger, pnr, u).value;
    var k := FirstIndex(ledger, p).value;
    assert once.ledger == ledger[k := ledger[k].(status := Cancelled)];
    FirstIndexStable(ledger, once.ledger, p);
    assert once.ledger[k := once.ledger[k].(status := Cancelled)] == once.ledger;
  }

  /** A cancellation by `u` changes nothing but the status of one booking,
      and only a booking `u` owns. */
  lemma CancelTouchesOnlyOwnBooking(ledger: seq<Booking>, pnr: string, u: int)
    requires CancelTicket(ledger, pnr, u).Success?
    ensures var after := CancelTicket(ledger, pnr, u).value.ledger;
      && |after| == |ledger|
      && forall i | 0 <= i < |ledger| ::
           after[i] == ledger[i]
           || (OwnedMatch(ledger[i], pnr, u) && after[i] == ledger[i].(status := Cancelled))
  {
  }

  /* ----------------------------------------------------------------------
     Ledger histories
     ---------------------------------------------------------------------- */

  /** One call into the booking service that changes the ledger. */
  datatype Call =
    | Book(request: BookingRequest, token: string, today: string)
    | Cancel(pnr: string, userId: int)

  /** The ledger after one call; a failed cancellation leaves it as it was. */
  function Perform(cat: Catalogue, ledger: seq<Booking>, call: Call): seq<Booking> {
    match call
    case Book(req, token, today) => BookTicket(cat, ledger, req, token, today).ledger
    case Cancel(pnr, u) =>
      match CancelTicket(ledger, pnr, u)
      case Success(receipt) => receipt.ledger
      case Failure(_) => ledger
  }

  function Replay(cat: Catalogue, ledger: seq<Booking>, calls: seq<Call>): seq<Booking>
    decreases |calls|
  {
    if |calls| == 0 then ledger
    else Replay(cat, Perform(cat, ledger, calls[0]), calls[1..])
  }

  /** Booking ids are 1, 2, ..., n in ledger order. */
  predicate WellNumbered(ledger: seq<Booking>) {
    forall i | 0 <= i < |ledger| :: ledger[i].bookingId == i + 1
  }

  /** `later` extends `earlier`: no booking is removed, and an existing
      booking differs at most by having been cancelled. */
  predicate Evolves(earlier: seq<Booking>, later: seq<Booking>) {
    && |earlier| <= |later|
    && forall i | 0 <= i < |earlier| ::
         later[i] == earlier[i] || later[i] == earlier[i].(status := Cancelled)
  }

  /** The ledger never produces a WAITING booking. */
  predicate NoneWaiting(ledger: seq<Booking>) {
    forall i | 0 <= i < |ledger| :: ledger[i].status != Waiting
  }

  /** No booking of the ledger carries an amount. */
  predicate NoAmountStored(ledger: seq<Booking>) {
    forall i | 0 <= i < |ledger| :: ledger[i].totalAmount.None?
  }

  lemma PerformKeepsInvariants(cat: Catalogue, ledger: seq<Booking>, call: Call)
    requires WellNumbered(ledger) && NoneWaiting(ledger) && NoAmountStored(ledger)
    ensures var after := Perform(cat, ledger, call);
      WellNumbered(after) && NoneWaiting(after) && NoAmountStored(after) && Evolves(ledger, after)
  {
    match call
    case Book(req, token, today) =>
    case Cancel(pnr, u) =>
      if CancelTicket(ledger, pnr, u).Success? {
        CancelTouchesOnlyOwnBooking(ledger, pnr, u);
      }
  }

  lemma EvolvesTransitive(a: seq<Booking>, b: seq<Booking>, c: seq<Booking>)
    requires Evolves(a, b) && Evolves(b, c)
    ensures Evolves(a, c)
  {
    forall i | 0 <= i < |a|
      ensures c[i] == a[i] || c[i] == a[i].(status := Cancelled)
    {
      assert b[i] == a[i] || b[i] == a[i].(status := Cancelled);
      assert c[i] == b[i] || c[i] == b[i].(status := Cancelled);
    }
  }

  /** Whatever sequence of calls is made, booking ids stay 1..n in order, no
      booking is ever WAITING or carries an amount, and bookings are only
      appended or cancelled. */
  lemma {:induction false} ReplayKeepsInvariants(cat: Catalogue, ledger: seq<Booking>, calls: seq<Call>)
    requires WellNumbered(ledger) && NoneWaiting(ledger) && NoAmountStored(ledger)
    ensures var after := Replay(cat, ledger, calls);
      WellNumbered(after) && NoneWaiting(after) && NoAmountStored(after) && Evolves(ledger, after)
    decreases |calls|
  {
    if |calls| > 0 {
      var next := Perform(cat, ledger, calls[0]);
      PerformKeepsInvariants(cat, ledger, calls[0]);
      ReplayKeepsInvariants(cat, next, calls[1..]);
      EvolvesTransitive(ledger, next, Replay(cat, next, calls[1..]));
    }
  }

  /** From the initial ledger, every reachable ledger is numbered 1..n, and
      none of its bookings is WAITING or carries an amount. */
  lemma ReachableLedgersWellNumbered(cat: Catalogue, calls: seq<Call>)
    ensures WellNumbered(Replay(cat, InitialLedger, calls))
    ensures NoneWaiting(Replay(cat, InitialLedger, calls))
    ensures NoAmountStored(Replay(cat, InitialLedger, calls))
  {
    ReplayKeepsInvariants(cat, InitialLedger, calls);
  }
}
