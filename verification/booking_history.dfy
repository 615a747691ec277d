/**
  The logic of the booking-history view (src/components/BookingHistory.tsx):
  loading the user's bookings, cancelling one and updating the local list,
  which bookings offer a cancel button, and the defaults the view shows for
  missing fields.
 */
module BookingHistory {
  import opened Base
  import opened Types
  import Api

  /** What the view holds: the bookings shown, whether the spinner is up,
      and the error line ("" when none is shown). */
  datatype HistoryView = HistoryView(bookings: seq<Booking>, loading: bool, error: string)

  const InitialView := HistoryView([], true, "")

  /** Loads the signed-in user's bookings. With nobody signed in nothing is
      loaded and the spinner stays up. */
  function LoadBookings(v: HistoryView, user: Option<int>, ledger: seq<Booking>): (r: HistoryView)
    ensures user.None? ==> r == v
    ensures user.Some? ==>
      && r.bookings == Api.GetUserBookings(ledger, user.value)
      && !r.loading
      && r.error == v.error
  {
    match user
    case None => v
    case Some(u) => v.(bookings := Api.GetUserBookings(ledger, u), loading := false)
  }

  /** Without a user the history never leaves its loading state. */
  lemma NoUserKeepsSpinner(ledger: seq<Booking>)
    ensures LoadBookings(InitialView, None, ledger).loading
    ensures LoadBookings(InitialView, None, ledger).bookings == []
  {
  }

  /** The local list after a cancellation: every booking with the PNR is
      marked CANCELLED; everything else is left alone. */
  function MarkCancelled(bs: seq<Booking>, pnr: string): (r: seq<Booking>)
    ensures |r| == |bs|
    ensures forall i | 0 <= i < |bs| ::
      r[i] == if bs[i].pnr == pnr then bs[i].(status := Cancelled) else bs[i]
  {
    if |bs| == 0 then []
    else [if bs[0].pnr == pnr then bs[0].(status := Cancelled) else bs[0]]
         + MarkCancelled(bs[1..], pnr)
  }

  lemma MarkCancelledAppend(a: seq<Booking>, b: seq<Booking>, pnr: string)
    ensures MarkCancelled(a + b, pnr) == MarkCancelled(a, pnr) + MarkCancelled(b, pnr)
  {
  }

  /** Marking and filtering by owner commute, because a status change keeps
      the owner. */
  lemma {:induction false} MarkThenListIsListThenMark(ledger: seq<Booking>, pnr: string, u: int)
    ensures Api.GetUserBookings(MarkCancelled(ledger, pnr), u)
         == MarkCancelled(Api.GetUserBookings(ledger, u), pnr)
  {
    var own := (b: Booking) => b.userId == u;
    if |ledger| > 0 {
      var head := ledger[0];
      var marked := MarkCancelled(ledger, pnr);
      assert marked[1..] == MarkCancelled(ledger[1..], pnr);
      MarkThenListIsListThenMark(ledger[1..], pnr, u);
      var kept := if own(head) then [head] else [];
      MarkCancelledAppend(kept, Filter(ledger[1..], own), pnr);
      assert MarkCancelled(kept, pnr) == if own(head) then [marked[0]] else [];
    }
  }

  predicate PnrUnique(ledger: seq<Booking>) {
    forall i, j | 0 <= i < j < |ledger| :: ledger[i].pnr != ledger[j].pnr
  }

  /** When PNRs are unique, the list the view shows after a successful
      cancellation is exactly what a reload from the ledger would show. */
  lemma LocalCancelMatchesLedger(ledger: seq<Booking>, pnr: string, u: int)
    requires PnrUnique(ledger)
    requires Api.CancelTicket(ledger, pnr, u).Success?
    ensures MarkCancelled(Api.GetUserBookings(ledger, u), pnr)
         == Api.GetUserBookings(Api.CancelTicket(ledger, pnr, u).value.ledger, u)
  {
    var after := Api.CancelTicket(ledger, pnr, u).value.ledger;
    var k :| 0 <= k < |ledger| && Api.OwnedMatch(ledger[k], pnr, u)
             && after == ledger[k := ledger[k].(status := Cancelled)];
    var marked := MarkCancelled(ledger, pnr);
    forall i | 0 <= i < |ledger|
      ensures after[i] == marked[i]
    {
      if i < k {
        assert ledger[i].pnr != ledger[k].pnr;
      } else if k < i {
        assert ledger[k].pnr != ledger[i].pnr;
      }
    }
    assert after == marked;
    MarkThenListIsListThenMark(ledger, pnr, u);
  }

  /** On a three-entry ledger whose last two entries belong to `u` and whose
      first does not, `u`'s list is those two. */
  lemma OwnerListOfLastTwo(ledger: seq<Booking>, u: int)
    requires |ledger| == 3
    requires ledger[0].userId != u && ledger[1].userId == u && ledger[2].userId == u
    ensures Api.GetUserBookings(ledger, u) == [ledger[1], ledger[2]]
  {
    var own := (b: Booking) => b.userId == u;
    assert ledger == [ledger[0]] + [ledger[1]] + [ledger[2]];
    FilterAppend([ledger[0]] + [ledger[1]], [ledger[2]], own);
    FilterAppend([ledger[0]], [ledger[1]], own);
    FilterSingleton(ledger[0], own);
    FilterSingleton(ledger[1], own);
    FilterSingleton(ledger[2], own);
  }

  /** Booking twice with the same request and token, starting from the
      initial ledger, gives two CONFIRMED bookings of that user under one
      PNR after the initial booking. */
  lemma DoubleBooking(cat: Api.Catalogue, req: BookingRequest, token: string, today: string)
    ensures var call := Api.Book(req, token, today);
      var ledger := Api.Replay(cat, Api.InitialLedger, [call, call]);
      && |ledger| == 3
      && ledger[0] == Api.InitialLedger[0]
      && ledger[1].pnr == ledger[2].pnr == Api.PnrPrefix + token
      && ledger[1].userId == ledger[2].userId == req.userId
      && ledger[1].status == ledger[2].status == Confirmed
  {
    var call := Api.Book(req, token, today);
    var l1 := Api.BookTicket(cat, Api.InitialLedger, req, token, today).ledger;
    var l2 := Api.BookTicket(cat, l1, req, token, today).ledger;
    assert [call, call][1..] == [call];
    assert Api.Replay(cat, l1, [call]) == l2;
    assert l2[..|l1|] == l1;
    assert l2[0] == l1[0] && l2[1] == l1[1];
  }

  /** Without unique PNRs the two diverge, and duplicates are reachable: the
      service never checks that a PNR is new, so a user (other than the
      owner of the initial booking) who books twice and draws the same token
      holds two bookings under one PNR. Cancelling it, the service cancels
      only the first while the view marks both. */
  lemma DuplicatePnrDiverges(cat: Api.Catalogue, req: BookingRequest, token: string, today: string)
    requires req.userId != Api.InitialLedger[0].userId
    ensures var call := Api.Book(req, token, today);
      var ledger := Api.Replay(cat, Api.InitialLedger, [call, call]);
      var pnr := Api.PnrPrefix + token;
      var r := Api.CancelTicket(ledger, pnr, req.userId);
      && |ledger| == 3
      && ledger[1].pnr == ledger[2].pnr == pnr
      && r.Success?
      && MarkCancelled(Api.GetUserBookings(ledger, req.userId), pnr)
         != Api.GetUserBookings(r.value.ledger, req.userId)
  {
    var u, pnr := req.userId, Api.PnrPrefix + token;
    var call := Api.Book(req, token, today);
    var ledger := Api.Replay(cat, Api.InitialLedger, [call, call]);
    DoubleBooking(cat, req, token, today);
    OwnerListOfLastTwo(ledger, u);
    assert !Api.OwnedMatch(ledger[0], pnr, u);
    assert Api.OwnedMatch(ledger[1], pnr, u);
    var after := Api.CancelTicket(ledger, pnr, u).value.ledger;
    assert after == ledger[1 := ledger[1].(status := Cancelled)];
    OwnerListOfLastTwo(after, u);
    assert MarkCancelled([ledger[1], ledger[2]], pnr)[1].status == Cancelled;
  }

  /** The state of the view and of the service after a cancel request. */
  datatype CancelStep = CancelStep(view: HistoryView, ledger: seq<Booking>)

  /** The cancel button's handler. Without a user, or if the user does not
      confirm, nothing happens. Otherwise the service is asked; on success
      every local booking with the PNR is marked CANCELLED, on failure the
      list stays and the service's message is shown. */
  function HandleCancelTicket(v: HistoryView, user: Option<int>, confirmed: bool,
                              ledger: seq<Booking>, pnr: string): (r: CancelStep)
    ensures user.None? || !confirmed ==> r == CancelStep(v, ledger)
    ensures user.Some? && confirmed && Api.CancelTicket(ledger, pnr, user.value).Success? ==>
      && r.ledger == Api.CancelTicket(ledger, pnr, user.value).value.ledger
      && r.view == v.(bookings := MarkCancelled(v.bookings, pnr))
    ensures user.Some? && confirmed && Api.CancelTicket(ledger, pnr, user.value).Failure? ==>
      && r.ledger == ledger
      && r.view == v.(error := Api.NotFoundMessage)
  {
    if user.None? || !confirmed then CancelStep(v, ledger)
    else
      match Api.CancelTicket(ledger, pnr, user.value)
      case Success(receipt) =>
        CancelStep(v.(bookings := MarkCancelled(v.bookings, pnr)), receipt.ledger)
      case Failure(e) => CancelStep(v.(error := e), ledger)
  }

  /** Whether a booking shows the "Cancel Ticket" button. */
  function CanCancel(b: Booking): (r: bool)
    ensures r <==> b.status != Cancelled
  {
    b.status == Confirmed || b.status == Waiting
  }

  /** After a successful cancel, no booking with that PNR offers the button
      again, and the others offer it as before. */
  lemma CancelledNotOfferedAgain(v: HistoryView, u: int, ledger: seq<Booking>, pnr: string)
    requires Api.CancelTicket(ledger, pnr, u).Success?
    ensures var after := HandleCancelTicket(v, Some(u), true, ledger, pnr).view.bookings;
      && |after| == |v.bookings|
      && forall i | 0 <= i < |after| ::
           CanCancel(after[i]) <==> v.bookings[i].pnr != pnr && CanCancel(v.bookings[i])
  {
  }

  const WaitingListLabel := "Waiting List"

  /** The seat column next to a passenger: "Seat n" on a confirmed booking,
      "Waiting List" on any other. */
  function SeatLabel(b: Booking, p: PassengerWithSeat): (r: string)
    ensures r == WaitingListLabel <==> b.status != Confirmed
    ensures b.status == Confirmed ==>
      |r| > 5 && r[..5] == "Seat " && r[5..] == IntToString(p.seatNumber)
  {
    if b.status == Confirmed then
      var r := "Seat " + IntToString(p.seatNumber);
      assert r[0] != WaitingListLabel[0];
      r
    else WaitingListLabel
  }

  /** A booking fresh from the ledger labels its passengers "Seat 1",
      "Seat 2", ..., all different. */
  lemma FreshBookingSeatLabelsDistinct(cat: Api.Catalogue, ledger: seq<Booking>, req: BookingRequest,
                                       token: string, today: string)
    ensures var b := Api.BookTicket(cat, ledger, req, token, today).ledger[|ledger|];
      var ps := b.passengers.value;
      && (forall i | 0 <= i < |ps| :: SeatLabel(b, ps[i]) == "Seat " + IntToString(i + 1))
      && (forall i, j | 0 <= i < j < |ps| :: SeatLabel(b, ps[i]) != SeatLabel(b, ps[j]))
  {
    var b := Api.BookTicket(cat, ledger, req, token, today).ledger[|ledger|];
    var ps := b.passengers.value;
    forall i, j | 0 <= i < j < |ps|
      ensures SeatLabel(b, ps[i]) != SeatLabel(b, ps[j])
    {
      if SeatLabel(b, ps[i]) == SeatLabel(b, ps[j]) {
        assert SeatLabel(b, ps[i])[5..] == IntToString(i + 1);
        assert SeatLabel(b, ps[j])[5..] == IntToString(j + 1);
        IntToStringInjective(i + 1, j + 1);
      }
    }
  }

  /** The class shown: "Sleeper" when the booking names none (or an empty
      one). */
  function ClassShown(b: Booking): (r: string)
    ensures b.bookingClass.None? || b.bookingClass.value == "" ==> r == "Sleeper"
    ensures b.bookingClass.Some? && b.bookingClass.value != "" ==> r == b.bookingClass.value
  {
    match b.bookingClass
    case Some(c) => if c != "" then c else "Sleeper"
    case None => "Sleeper"
  }

  /** The passenger count shown: 0 when the booking has no passenger list. */
  function PassengerCountShown(b: Booking): (r: nat)
    ensures b.passengers.None? ==> r == 0
    ensures b.passengers.Some? ==> r == |b.passengers.value|
  {
    match b.passengers
    case Some(ps) => |ps|
    case None => 0
  }

  /** The heading of a booking: the train's name, or "Train <id>" when the
      train is unknown or unnamed. */
  function TrainTitle(b: Booking): (r: string)
    ensures b.train.Some? && b.train.value.name != "" ==> r == b.train.value.name
    ensures b.train.None? || b.train.value.name == "" ==> r == "Train " + IntToString(b.trainId)
  {
    match b.train
    case Some(t) => if t.name != "" then t.name else "Train " + IntToString(b.trainId)
    case None => "Train " + IntToString(b.trainId)
  }

  /** The amount shown after the rupee sign: the stored amount, or "0" when
      the booking carries none. */
  function AmountShown(b: Booking): (r: string)
    ensures b.totalAmount.None? ==> r == "0"
    ensures b.totalAmount.Some? ==> r == IntToString(b.totalAmount.value)
  {
    match b.totalAmount
    case Some(a) => IntToString(a)
    case None => "0"
  }

  /** The start of the route line: the train's source station name, or
      "Source" when the train, its station or the name is missing. */
  function SourceShown(b: Booking): (r: string)
    ensures (b.train.Some? && b.train.value.sourceStation.Some?
             && b.train.value.sourceStation.value.name != "") ==> r == b.train.value.sourceStation.value.name
    ensures (b.train.None? || b.train.value.sourceStation.None?
             || b.train.value.sourceStation.value.name == "") ==> r == "Source"
  {
    match b.train
    case Some(t) =>
      (match t.sourceStation
       case Some(st) => if st.name != "" then st.name else "Source"
       case None => "Source")
    case None => "Source"
  }

  /** The end of the route line, with "Destination" as the default. */
  function DestinationShown(b: Booking): (r: string)
    ensures (b.train.Some? && b.train.value.destinationStation.Some?
             && b.train.value.destinationStation.value.name != "") ==> r == b.train.value.destinationStation.value.name
    ensures (b.train.None? || b.train.value.destinationStation.None?
             || b.train.value.destinationStation.value.name == "") ==> r == "Destination"
  {
    match b.train
    case Some(t) =>
      (match t.destinationStation
       case Some(st) => if st.name != "" then st.name else "Destination"
       case None => "Destination")
    case None => "Destination"
  }

  /** Since the ledger stores neither a class nor an amount, every booking it
      makes shows "Sleeper", whatever class was chosen on the form, and an
      amount of 0, and shows as many passengers as were requested. */
  lemma BookedShowsSleeperAndCount(cat: Api.Catalogue, ledger: seq<Booking>, req: BookingRequest,
                                   token: string, today: string)
    ensures var b := Api.BookTicket(cat, ledger, req, token, today).ledger[|ledger|];
      && ClassShown(b) == "Sleeper"
      && AmountShown(b) == "0"
      && PassengerCountShown(b) == |req.passengers|
  {
  }

  /** Whatever calls have been made, every booking the history lists, the
      initial one included, shows an amount of 0. */
  lemma ListedAmountsAreZero(cat: Api.Catalogue, calls: seq<Api.Call>, u: int)
    ensures var listed := Api.GetUserBookings(Api.Replay(cat, Api.InitialLedger, calls), u);
      forall i | 0 <= i < |listed| :: AmountShown(listed[i]) == "0"
  {
    Api.ReachableLedgersWellNumbered(cat, calls);
  }

  /** A booking of a catalogue train is headed by the train's name, and its
      route line names the catalogue stations whose ids the train runs
      between. */
  lemma BookedCatalogueTrainHeading(ledger: seq<Booking>, req: BookingRequest,
                                    token: string, today: string, i: nat)
    requires i < |Api.MockTrains| && req.trainId == Api.MockTrains[i].id
    ensures var b := Api.BookTicket(Api.MockCatalogue, ledger, req, token, today).ledger[|ledger|];
      && TrainTitle(b) == Api.MockTrains[i].name
      && (forall j | 0 <= j < |Api.MockStations| && Api.MockStations[j].id == Api.MockTrains[i].sourceStationId ::
            SourceShown(b) == Api.MockStations[j].name)
      && (forall j | 0 <= j < |Api.MockStations| && Api.MockStations[j].id == Api.MockTrains[i].destinationStationId ::
            DestinationShown(b) == Api.MockStations[j].name)
  {
    BookedTrainFound(ledger, req, token, today, i);
    CatalogueTrainStationsAgree(i);
  }

  /** Train ids are distinct in the catalogue, so a booking of the i-th
      train's id records that train. */
  lemma BookedTrainFound(ledger: seq<Booking>, req: BookingRequest,
                         token: string, today: string, i: nat)
    requires i < |Api.MockTrains| && req.trainId == Api.MockTrains[i].id
    ensures Api.BookTicket(Api.MockCatalogue, ledger, req, token, today).ledger[|ledger|].train
            == Some(Api.MockTrains[i])
  {
    var b := Api.BookTicket(Api.MockCatalogue, ledger, req, token, today).ledger[|ledger|];
    assert b.train.Some?;
    assert b.train.value in Api.MockTrains && b.train.value.id == Api.MockTrains[i].id;
  }

  /** Each catalogue train carries, as its source and destination stations,
      the catalogue stations its ids name. */
  lemma CatalogueTrainStationsAgree(i: nat)
    requires i < |Api.MockTrains|
    ensures forall j | 0 <= j < |Api.MockStations| && Api.MockStations[j].id == Api.MockTrains[i].sourceStationId ::
      Api.MockTrains[i].sourceStation == Some(Api.MockStations[j])
    ensures forall j | 0 <= j < |Api.MockStations| && Api.MockStations[j].id == Api.MockTrains[i].destinationStationId ::
      Api.MockTrains[i].destinationStation == Some(Api.MockStations[j])
  {
  }

  /** A booking of a train id the catalogue lacks is headed "Train <id>" and
      its route line reads "Source" to "Destination". */
  lemma BookedUnknownTrainHeading(ledger: seq<Booking>, req: BookingRequest, token: string, today: string)
    requires forall i | 0 <= i < |Api.MockTrains| :: Api.MockTrains[i].id != req.trainId
    ensures var b := Api.BookTicket(Api.MockCatalogue, ledger, req, token, today).ledger[|ledger|];
      && TrainTitle(b) == "Train " + IntToString(req.trainId)
      && SourceShown(b) == "Source"
      && DestinationShown(b) == "Destination"
  {
  }
}
