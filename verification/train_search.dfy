/**
  The logic of the search form (src/components/TrainSearch.tsx): the checks
  made before a search, how its outcome is stored, swapping the stations,
  editing one field, and the label of the booking button on each result.
 */
module TrainSearch {
  import opened Base
  import opened Types
  import Api
  import BookingForm

  const FieldsMissingError := "Please fill in all search fields"
  const SameStationError := "Source and destination stations cannot be the same"
  const NoTrainsError := "No trains found for the selected route and date"

  /** What the search view holds: the form fields, the last results and the
      error line ("" when none is shown). */
  datatype SearchView = SearchView(params: SearchParams, results: seq<Train>, error: string)

  /** The view before the default date is filled in. */
  const InitialView := SearchView(SearchParams("", "", ""), [], "")

  /** The complaint, if any, that stops a search before the service is
      called. Empty fields are reported before identical stations. */
  function SearchGuard(p: SearchParams): (r: Option<string>)
    ensures r == Some(FieldsMissingError) <==> p.from == "" || p.to == "" || p.date == ""
    ensures r == Some(SameStationError) <==>
      p.from != "" && p.to != "" && p.date != "" && p.from == p.to
    ensures r.None? <==> p.from != "" && p.to != "" && p.date != "" && p.from != p.to
  {
    if p.from == "" || p.to == "" || p.date == "" then Some(FieldsMissingError)
    else if p.from == p.to then Some(SameStationError)
    else None
  }

  /** Submits the search form. A rejected search only sets the error; an
      accepted one stores the results and shows "No trains found…" exactly
      when there are none. */
  function HandleSearch(v: SearchView, cat: Api.Catalogue): (r: SearchView)
    ensures r.params == v.params
    ensures SearchGuard(v.params).Some? ==>
      r.results == v.results && r.error == SearchGuard(v.params).value
    ensures SearchGuard(v.params).None? ==>
      && r.results == Api.SearchTrains(cat, v.params)
      && (r.error == NoTrainsError <==> |r.results| == 0)
      && (|r.results| > 0 ==> r.error == "")
  {
    match SearchGuard(v.params)
    case Some(e) => v.(error := e)
    case None =>
      var results := Api.SearchTrains(cat, v.params);
      v.(results := results, error := if |results| == 0 then NoTrainsError else "")
  }

  /** The form opens with no error and no results, and searching before
      any field is filled only complains about the empty fields. */
  lemma OpeningFormAsksForFields(cat: Api.Catalogue)
    ensures InitialView.error == "" && InitialView.results == []
    ensures HandleSearch(InitialView, cat) == InitialView.(error := FieldsMissingError)
  {
  }

  /** A search from the form never runs with the two stations equal. */
  lemma SearchedRouteHasDistinctEnds(v: SearchView, cat: Api.Catalogue)
    requires HandleSearch(v, cat).error != FieldsMissingError
    requires HandleSearch(v, cat).error != SameStationError
    ensures v.params.from != "" && v.params.to != "" && v.params.from != v.params.to
  {
  }

  /** Exchanges the two stations and keeps the date. */
  function SwapStations(p: SearchParams): (r: SearchParams)
    ensures r.from == p.to && r.to == p.from && r.date == p.date
  {
    p.(from := p.to, to := p.from)
  }

  /** Swapping twice restores the form, and a swap never changes whether
      the form passes the checks. */
  lemma SwapProperties(p: SearchParams)
    ensures SwapStations(SwapStations(p)) == p
    ensures SearchGuard(SwapStations(p)) == SearchGuard(p)
  {
  }

  /** On the service's catalogue, swapping New Delhi and Mumbai Central
      turns a search that finds train 1 into one that finds nothing. */
  lemma SwapReversesRoute(date: string)
    ensures var p := SearchParams("NDLS", "MMCT", date);
      && Api.SearchTrains(Api.MockCatalogue, p) == [Api.MockTrains[0]]
      && Api.SearchTrains(Api.MockCatalogue, SwapStations(p)) == []
  {
    Api.DirectionalSearch(date);
  }

  datatype SearchField = From | To | Date

  /** Sets one field of the form and leaves the other two alone. */
  function HandleChange(p: SearchParams, field: SearchField, value: string): (r: SearchParams)
    ensures r.from == (if field == From then value else p.from)
    ensures r.to == (if field == To then value else p.to)
    ensures r.date == (if field == Date then value else p.date)
  {
    match field
    case From => p.(from := value)
    case To => p.(to := value)
    case Date => p.(date := value)
  }

  /** Editing one field twice keeps only the second value. */
  lemma LastChangeWins(p: SearchParams, field: SearchField, v: string, w: string)
    ensures HandleChange(HandleChange(p, field, v), field, w) == HandleChange(p, field, w)
  {
  }

  /** Setting "From" and then swapping is the same as swapping first and
      setting "To", and the other way round; a date edit commutes with the
      swap. */
  lemma SwapExchangesChangedField(p: SearchParams, v: string)
    ensures SwapStations(HandleChange(p, From, v)) == HandleChange(SwapStations(p), To, v)
    ensures SwapStations(HandleChange(p, To, v)) == HandleChange(SwapStations(p), From, v)
    ensures SwapStations(HandleChange(p, Date, v)) == HandleChange(SwapStations(p), Date, v)
  {
  }

  const BookNow := "Book Now"
  const JoinWaitlist := "Join Waitlist"

  /** The label of a result's booking button: "Book Now" exactly when a
      positive seat count is known, "Join Waitlist" otherwise, including
      for a count of zero or no count at all. The truthiness test on the
      count only rules out 0, which the positivity test rules out too. */
  function BookingButtonLabel(t: Train): (r: string)
    ensures r == BookNow <==> t.availableSeats.Some? && t.availableSeats.value > 0
    ensures r != BookNow ==> r == JoinWaitlist
  {
    match t.availableSeats
    case Some(n) => if n > 0 then BookNow else JoinWaitlist
    case None => JoinWaitlist
  }

  /** Every train of the service's catalogue offers "Book Now". */
  lemma CatalogueTrainsBookable(i: nat)
    requires i < |Api.MockTrains|
    ensures BookingButtonLabel(Api.MockTrains[i]) == BookNow
  {
  }

  /** The results list and the booking form read the same seat count: a
      train the form marks "Waiting List" is offered only "Join Waitlist",
      and one offered "Book Now" is not marked. A train with no count at
      all is offered "Join Waitlist" although the form shows no waiting
      list line for it. */
  lemma ButtonAgreesWithWaitingListLine(t: Train)
    ensures BookingForm.ShowsWaitingList(t) ==> BookingButtonLabel(t) == JoinWaitlist
    ensures BookingButtonLabel(t) == BookNow ==> !BookingForm.ShowsWaitingList(t)
    ensures t.availableSeats.None? ==>
      BookingButtonLabel(t) == JoinWaitlist && !BookingForm.ShowsWaitingList(t)
  {
  }
}
