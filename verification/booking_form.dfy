/**
  The logic of the booking form (src/components/BookingForm.tsx): the
  passenger-list editor, form validation, the fare table and total, the
  class menu offered for a train, and the guard before a booking is sent.
 */
module BookingForm {
  import opened Base
  import opened Types
  import Api

  const MaxPassengers := 6

  /** The entry the form adds for a new passenger. */
  const BlankPassenger := Passenger("", 0, "Male")

  /** The form opens with one blank passenger and AC 3-Tier selected. */
  const InitialPassengers: seq<Passenger> := [BlankPassenger]
  const InitialClass := "AC 3-Tier"

  const NameError := "Please enter names for all passengers"
  const AgeError := "Please enter valid ages for all passengers"
  const NoUserError := "User not found. Please login again."

  predicate CountInRange(ps: seq<Passenger>) {
    1 <= |ps| <= MaxPassengers
  }

  /* ----------------------------------------------------------------------
     Passenger-list editor
     ---------------------------------------------------------------------- */

  /** Adds a blank passenger unless six are already listed. */
  function AddPassenger(ps: seq<Passenger>): (r: seq<Passenger>)
    ensures |ps| < MaxPassengers ==> |r| == |ps| + 1 && r[..|ps|] == ps && r[|ps|] == BlankPassenger
    ensures |ps| >= MaxPassengers ==> r == ps
  {
    if |ps| < MaxPassengers then ps + [BlankPassenger] else ps
  }

  /** Removes the passenger at `index`, unless only one is listed; the
      others keep their order. An index outside the list removes nothing,
      as `filter((_, i) => i !== index)` then keeps every entry. */
  function RemovePassenger(ps: seq<Passenger>, index: int): (r: seq<Passenger>)
    ensures |ps| > 1 && 0 <= index < |ps| ==>
      && |r| == |ps| - 1
      && forall j | 0 <= j < |r| :: r[j] == if j < index then ps[j] else ps[j + 1]
    ensures |ps| <= 1 || !(0 <= index < |ps|) ==> r == ps
  {
    if |ps| > 1 && 0 <= index < |ps| then ps[..index] + ps[index + 1..] else ps
  }

  /** A change to one field of a passenger. */
  datatype Change = SetName(name: string) | SetAge(age: int) | SetGender(gender: string)

  function ApplyChange(p: Passenger, c: Change): (r: Passenger)
    ensures r.name == (if c.SetName? then c.name else p.name)
    ensures r.age == (if c.SetAge? then c.age else p.age)
    ensures r.gender == (if c.SetGender? then c.gender else p.gender)
  {
    match c
    case SetName(n) => p.(name := n)
    case SetAge(a) => p.(age := a)
    case SetGender(g) => p.(gender := g)
  }

  /** Changes one field of the passenger at `index`; every other passenger,
      and the length of the list, stay as they were. */
  function UpdatePassenger(ps: seq<Passenger>, index: int, c: Change): (r: seq<Passenger>)
    ensures |r| == |ps|
    ensures forall j | 0 <= j < |ps| && j != index :: r[j] == ps[j]
    ensures 0 <= index < |ps| ==> r[index] == ApplyChange(ps[index], c)
  {
    if |ps| == 0 then []
    else [if index == 0 then ApplyChange(ps[0], c) else ps[0]] + UpdatePassenger(ps[1..], index - 1, c)
  }

  /** One action of the passenger editor. */
  datatype Edit = Add | Remove(index: int) | Update(index: int, change: Change)

  function ApplyEdit(ps: seq<Passenger>, e: Edit): seq<Passenger> {
    match e
    case Add => AddPassenger(ps)
    case Remove(i) => RemovePassenger(ps, i)
    case Update(i, c) => UpdatePassenger(ps, i, c)
  }

  function ApplyEdits(ps: seq<Passenger>, es: seq<Edit>): seq<Passenger>
    decreases |es|
  {
    if |es| == 0 then ps else ApplyEdits(ApplyEdit(ps, es[0]), es[1..])
  }

  /** Whatever the user does in the editor, between one and six passengers
      are listed. */
  lemma {:induction false} EditsKeepCountInRange(ps: seq<Passenger>, es: seq<Edit>)
    requires CountInRange(ps)
    ensures CountInRange(ApplyEdits(ps, es))
    decreases |es|
  {
    if |es| > 0 {
      EditsKeepCountInRange(ApplyEdit(ps, es[0]), es[1..]);
    }
  }

  lemma EditorCountFromStart(es: seq<Edit>)
    ensures CountInRange(ApplyEdits(InitialPassengers, es))
  {
    EditsKeepCountInRange(InitialPassengers, es);
  }

  /* ----------------------------------------------------------------------
     Validation
     ---------------------------------------------------------------------- */

  /** The whitespace `String.prototype.trim` removes, restricted to the ASCII
      controls, space, no-break space, the byte-order mark and the line and
      paragraph separators. */
  predicate IsWhitespace(c: char) {
    c == ' ' || c == '\t' || c == '\n' || c == '\r'
    || c == '\U{000B}' || c == '\U{000C}' || c == '\U{00A0}' || c == '\U{FEFF}'
    || c == '\U{2028}' || c == '\U{2029}'
  }

  predicate AllWhitespace(s: string) {
    forall i | 0 <= i < |s| :: IsWhitespace(s[i])
  }

  /** `s` without its leading whitespace. */
  function TrimStart(s: string): (r: string)
    ensures |r| <= |s| && r == s[|s| - |r|..]
    ensures AllWhitespace(s[..|s| - |r|])
    ensures |r| > 0 ==> !IsWhitespace(r[0])
  {
    if |s| == 0 || !IsWhitespace(s[0]) then s
    else
      var r := TrimStart(s[1..]);
      assert s[..|s| - |r|] == [s[0]] + s[1..][..|s| - 1 - |r|];
      r
  }

  /** `s` without its trailing whitespace. */
  function TrimEnd(s: string): (r: string)
    ensures |r| <= |s| && r == s[..|r|]
    ensures AllWhitespace(s[|r|..])
    ensures |r| > 0 ==> !IsWhitespace(r[|r| - 1])
  {
    if |s| == 0 || !IsWhitespace(s[|s| - 1]) then s
    else
      var r := TrimEnd(s[..|s| - 1]);
      assert s[|r|..] == s[..|s| - 1][|r|..] + [s[|s| - 1]];
      r
  }

  function Trim(s: string): string {
    TrimEnd(TrimStart(s))
  }

  /** A name is missing exactly when it consists of whitespace only. */
  lemma TrimEmptyIffBlank(s: string)
    ensures Trim(s) == [] <==> AllWhitespace(s)
  {
  }

  /** A passenger's name counts as missing when trimming leaves nothing of
      it, which by TrimEmptyIffBlank is when it is whitespace only. */
  predicate NameMissing(p: Passenger) {
    AllWhitespace(p.name)
  }

  predicate AgeInvalid(p: Passenger) {
    p.age < 1 || p.age > 120
  }

  predicate PassengerValid(p: Passenger) {
    !NameMissing(p) && !AgeInvalid(p)
  }

  /** The message a failing passenger produces: a missing name is reported
      before a bad age. */
  function ErrorFor(p: Passenger): string {
    if NameMissing(p) then NameError else AgeError
  }

  /** Validates the passengers in list order and reports the first failure.
      None means the form is valid. */
  function ValidateForm(ps: seq<Passenger>): (r: Option<string>)
    ensures r.None? <==> forall i | 0 <= i < |ps| :: PassengerValid(ps[i])
    ensures forall k | 0 <= k < |ps| && !PassengerValid(ps[k])
              && (forall j | 0 <= j < k :: PassengerValid(ps[j])) ::
              r == Some(ErrorFor(ps[k]))
  {
    match FirstIndex(ps, (p: Passenger) => !PassengerValid(p))
    case None => None
    case Some(k) => Some(ErrorFor(ps[k]))
  }

  /** Validation in terms of the raw fields: the form is valid exactly when
      every name keeps something after trimming and every age is 1..120. */
  lemma ValidIffFieldsFilled(ps: seq<Passenger>)
    ensures ValidateForm(ps).None? <==>
      forall i | 0 <= i < |ps| :: Trim(ps[i].name) != [] && 1 <= ps[i].age <= 120
  {
    forall i | 0 <= i < |ps|
      ensures NameMissing(ps[i]) <==> Trim(ps[i].name) == []
    {
      TrimEmptyIffBlank(ps[i].name);
    }
  }

  /** The form as it opens is not valid: its passenger has no name. */
  lemma InitialFormInvalid()
    ensures ValidateForm(InitialPassengers) == Some(NameError)
  {
    assert NameMissing(InitialPassengers[0]);
  }

  /* ----------------------------------------------------------------------
     Fares
     ---------------------------------------------------------------------- */

  /** Per-passenger base fare by class. */
  const FareTable: map<string, nat> := map[
    "AC 1st Class" := 2500,
    "AC 2-Tier" := 1800,
    "AC 3-Tier" := 1200,
    "Sleeper" := 850,
    "General" := 400
  ]

  const DefaultFare: nat := 850

  /** The fare of a listed class, and 850 (the Sleeper fare) for any other. */
  function BasePrice(cls: string): (r: nat)
    ensures cls in FareTable ==> r == FareTable[cls]
    ensures cls !in FareTable ==> r == FareTable["Sleeper"]
    ensures 400 <= r <= 2500
  {
    if cls in FareTable then FareTable[cls] else DefaultFare
  }

  /** The amount shown: one base fare per listed passenger. */
  function TotalAmount(ps: seq<Passenger>, cls: string): (r: nat)
    ensures CountInRange(ps) ==> 400 <= r <= 15000
  {
    |ps| * BasePrice(cls)
  }

  /** Reference reading of the total: the fares of the passengers one by
      one, every passenger paying the fare of the selected class. */
  function FareSum(ps: seq<Passenger>, cls: string): nat {
    if |ps| == 0 then 0 else FareSum(ps[..|ps| - 1], cls) + BasePrice(cls)
  }

  /** The amount shown is what the passengers pay one by one. */
  lemma {:induction false} TotalIsPerPassengerSum(ps: seq<Passenger>, cls: string)
    ensures TotalAmount(ps, cls) == FareSum(ps, cls)
  {
    if |ps| > 0 {
      TotalIsPerPassengerSum(ps[..|ps| - 1], cls);
      var n, b := |ps|, BasePrice(cls);
      assert n * b == (n - 1) * b + b;
    }
  }

  /** Adding a passenger raises the total by one base fare, removing one
      lowers it by one; at the limits the total does not move. */
  lemma EditorMovesTotalByOneFare(ps: seq<Passenger>, index: int, cls: string)
    ensures |ps| < MaxPassengers ==>
      TotalAmount(AddPassenger(ps), cls) == TotalAmount(ps, cls) + BasePrice(cls)
    ensures |ps| >= MaxPassengers ==> TotalAmount(AddPassenger(ps), cls) == TotalAmount(ps, cls)
    ensures |ps| > 1 && 0 <= index < |ps| ==>
      TotalAmount(RemovePassenger(ps, index), cls) == TotalAmount(ps, cls) - BasePrice(cls)
  {
    var n, b := |ps|, BasePrice(cls);
    assert (n + 1) * b == n * b + b;
    assert (n - 1) * b == n * b - b;
  }

  /* ----------------------------------------------------------------------
     Class menu
     ---------------------------------------------------------------------- */

  /** A menu entry: the class and the fare its label shows. */
  datatype ClassOption = ClassOption(bookingClass: string, shownFare: nat)

  predicate PremiumTrain(t: Train) {
    t.trainType == Some("Rajdhani") || t.trainType == Some("Shatabdi")
  }

  /** The classes offered for a train: AC 1st, AC 2-Tier and AC 3-Tier on
      Rajdhani and Shatabdi trains, AC 3-Tier, Sleeper and General on every
      other train. Each label shows the fare the form then charges. */
  function ClassOptions(t: Train): (r: seq<ClassOption>)
    ensures |r| == 3
    ensures forall i | 0 <= i < |r| ::
      r[i].bookingClass in FareTable && r[i].shownFare == BasePrice(r[i].bookingClass)
    ensures PremiumTrain(t) ==>
      (set i | 0 <= i < |r| :: r[i].bookingClass) == {"AC 1st Class", "AC 2-Tier", "AC 3-Tier"}
    ensures !PremiumTrain(t) ==>
      (set i | 0 <= i < |r| :: r[i].bookingClass) == {"AC 3-Tier", "Sleeper", "General"}
  {
    var r := if PremiumTrain(t) then
      [ClassOption("AC 1st Class", 2500), ClassOption("AC 2-Tier", 1800), ClassOption("AC 3-Tier", 1200)]
    else
      [ClassOption("AC 3-Tier", 1200), ClassOption("Sleeper", 850), ClassOption("General", 400)];
    assert (set i | 0 <= i < |r| :: r[i].bookingClass)
        == {r[0].bookingClass, r[1].bookingClass, r[2].bookingClass};
    r
  }

  /** The class selected when the form opens is on every menu. */
  lemma InitialClassAlwaysOffered(t: Train)
    ensures exists i | 0 <= i < |ClassOptions(t)| :: ClassOptions(t)[i].bookingClass == InitialClass
  {
    assert ClassOptions(t)[if PremiumTrain(t) then 2 else 0].bookingClass == InitialClass;
  }

  /** No train of the service's catalogue carries a train type, so every one
      of them, the Rajdhani and Shatabdi included, gets the standard menu. */
  lemma CatalogueTrainsGetStandardMenu(i: nat)
    requires i < |Api.MockTrains|
    ensures !PremiumTrain(Api.MockTrains[i])
  {
  }

  /** The summary shows "Waiting List" exactly when the train reports zero
      available seats; an unknown count shows nothing. */
  function ShowsWaitingList(t: Train): (r: bool)
    ensures r <==> t.availableSeats.Some? && t.availableSeats.value == 0
  {
    t.availableSeats == Some(0)
  }

  /* ----------------------------------------------------------------------
     Submission
     ---------------------------------------------------------------------- */

  /** What pressing "Confirm Booking" leads to. */
  datatype Submission = Blocked(error: string) | Send(request: BookingRequest)

  /** Validation comes first, then the signed-in user; only then is a
      booking request sent, carrying the form's passengers and class. */
  function HandleSubmit(ps: seq<Passenger>, cls: string, t: Train, travelDate: string,
                        user: Option<int>): (r: Submission)
    ensures r.Send? <==> ValidateForm(ps).None? && user.Some?
    ensures ValidateForm(ps).Some? ==> r == Blocked(ValidateForm(ps).value)
    ensures ValidateForm(ps).None? && user.None? ==> r == Blocked(NoUserError)
    ensures r.Send? ==>
      r.request == BookingRequest(user.value, t.id, travelDate, ps, cls)
  {
    match ValidateForm(ps)
    case Some(e) => Blocked(e)
    case None =>
      match user
      case None => Blocked(NoUserError)
      case Some(u) => Send(BookingRequest(u, t.id, travelDate, ps, cls))
  }

  /** A booking made through the form holds one to six passengers, each
      with a non-blank name and an age in 1..120, on seats 1..n. */
  lemma SubmittedBookingWellFormed(cat: Api.Catalogue, ledger: seq<Booking>, es: seq<Edit>,
                                   cls: string, t: Train, travelDate: string, u: int,
                                   token: string, today: string)
    requires HandleSubmit(ApplyEdits(InitialPassengers, es), cls, t, travelDate, Some(u)).Send?
    ensures var req := HandleSubmit(ApplyEdits(InitialPassengers, es), cls, t, travelDate, Some(u)).request;
      var b := Api.BookTicket(cat, ledger, req, token, today).ledger[|ledger|];
      && b.passengers.Some?
      && 1 <= |b.passengers.value| <= MaxPassengers
      && forall i | 0 <= i < |b.passengers.value| ::
           !AllWhitespace(b.passengers.value[i].info.name)
           && 1 <= b.passengers.value[i].info.age <= 120
           && b.passengers.value[i].seatNumber == i + 1
  {
    var ps := ApplyEdits(InitialPassengers, es);
    EditorCountFromStart(es);
  }
}
