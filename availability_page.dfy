/**
 * The availability page's booking pre-check: the guard chain that decides whether a chosen venue
 * and date go on to the bookings route. The page's current user and venue list are inputs.
 */
module AvailabilityPage {
  import opened Common
  import opened Types

  datatype BookingOutcome =
    | RedirectToLogin   // 'Please log in to book a date.'
    | FormInvalid       // 'Please select a venue and date.'
    | InvalidVenue      // 'Invalid venue selected.'
    | DateNotAvailable  // 'Selected date is not available.'
    | GoToBookings(venueId: string, date: string)

  /** `date.split('T')[0]`: the part of the input before its first `'T'`. */
  function DatePart(date: string): (r: string)
    ensures r <= date
    ensures 'T' !in r
    ensures |r| < |date| ==> date[|r|] == 'T'
    ensures 'T' !in date ==> r == date
  {
    if |date| == 0 || date[0] == 'T' then []
    else [date[0]] + DatePart(date[1..])
  }

  /** `bookSelectedDate()`: the decision, given the page state and the form's values. */
  function BookSelectedDate(currentUser: Option<User>, formValid: bool, venues: seq<Venue>,
                            venueId: string, date: string): (r: BookingOutcome)
    ensures currentUser.None? <==> r == RedirectToLogin
    ensures currentUser.Some? && !formValid <==> r == FormInvalid
    ensures r == InvalidVenue <==>
      currentUser.Some? && formValid && forall j :: 0 <= j < |venues| ==> venues[j].id != venueId
    ensures r.GoToBookings? <==>
      && currentUser.Some? && formValid
      && exists k :: 0 <= k < |venues| && venues[k].id == venueId
                     && (forall j :: 0 <= j < k ==> venues[j].id != venueId)
                     && DatePart(date) in venues[k].availableDates
    ensures r.GoToBookings? ==> r.venueId == venueId && r.date == DatePart(date)
  {
    if currentUser.None? then RedirectToLogin
    else if !formValid then FormInvalid
    else match FindVenue(venues, venueId)
      case None => InvalidVenue
      case Some(k) =>
        var formatted := DatePart(date);
        if formatted !in venues[k].availableDates then DateNotAvailable
        else GoToBookings(venueId, formatted)
  }
}
