/**
 The dashboard page: the wellness figures it shows (built-in defaults, with the
 Medicare Score replaced by one derived from the last assessment when the
 questionnaire left one in local storage), the verbal band of each figure, and
 the booking flow — a "professional support" dialog, the booking form, and the
 request that a confirmed booking sends.

 The booking request is asynchronous in the page; here it is split into the
 step that sends it (`StartConfirmBooking`) and the step that handles the
 response (`FinishConfirmBooking`), so the state in between, with the booking
 under way, is visible.
 */
module Dashboard {
  import opened Wrappers
  import Storage
  import Questionnaire
  import BookingForm

  datatype MentalHealthData = MentalHealthData(
    medicareScore: int,
    anxietyLevel: int,
    stressLevel: int,
    sleepQuality: int,
    moodScore: int,
    insights: seq<string>)

  const DefaultInsights: seq<string> := [
    "You've been sleeping less than 6 hours. Try to get 7-9 hours of sleep.",
    "You reported feeling down 3 days last week. Consider talking to someone.",
    "Your physical activity has decreased by 20% compared to last month."
  ]

  /** The figures shown when no assessment is waiting in storage. */
  const DefaultData: MentalHealthData := MentalHealthData(70, 4, 6, 3, 5, DefaultInsights)

  /** An assessment total above this opens the support dialog on the dashboard. */
  const ModalThreshold: int := 25

  /** A Medicare Score below this counts as low. */
  const LowScoreBound: int := 50

  // ---------------------------------------------------------------------------
  // From the assessment total to the Medicare Score

  /** The Medicare Score for an assessment total: 100 minus twice the total. */
  function MedicareFromAssessment(total: int): int {
    100 - total * 2
  }

  /** The assessment total a Medicare Score came from. */
  function AssessmentFromMedicare(score: int): int {
    (100 - score) / 2
  }

  /** The conversion loses nothing: the total can be read back from the score. */
  lemma MedicareRoundTrip(total: int)
    ensures AssessmentFromMedicare(MedicareFromAssessment(total)) == total
  {
    assert 100 - MedicareFromAssessment(total) == 2 * total;
  }

  /** A higher assessment total (more symptoms) gives a strictly lower Medicare Score. */
  lemma MedicareDecreasing(a: int, b: int)
    requires a < b
    ensures MedicareFromAssessment(b) < MedicareFromAssessment(a)
  {
  }

  /** The support dialog opens on the dashboard for a stored total above 25. */
  predicate OpensModal(total: int) {
    total > ModalThreshold
  }

  // ---------------------------------------------------------------------------
  // Bands

  /** The three colours a figure's badge can take: green, yellow, red. */
  datatype Tier = Green | Yellow | Red

  /** The band of a figure where higher is better: green from `high`, yellow from `low`, red below. */
  function TierAtLeast(v: int, high: int, low: int): (t: Tier)
    requires low <= high
    ensures t == Green <==> v >= high
    ensures t == Yellow <==> low <= v < high
    ensures t == Red <==> v < low
  {
    if v >= high then Green else if v >= low then Yellow else Red
  }

  /** The band of a figure where lower is better: green up to `low`, yellow up to `high`, red above. */
  function TierAtMost(v: int, low: int, high: int): (t: Tier)
    requires low <= high
    ensures t == Green <==> v <= low
    ensures t == Yellow <==> low < v <= high
    ensures t == Red <==> v > high
  {
    if v <= low then Green else if v <= high then Yellow else Red
  }

  /** Green ranks above yellow, which ranks above red. */
  function Rank(t: Tier): nat {
    match t
    case Green => 2
    case Yellow => 1
    case Red => 0
  }

  /** A better figure never gets a worse band. */
  lemma TierAtLeastMonotone(v: int, w: int, high: int, low: int)
    requires low <= high && v <= w
    ensures Rank(TierAtLeast(v, high, low)) <= Rank(TierAtLeast(w, high, low))
  {
  }

  lemma TierAtMostAntitone(v: int, w: int, low: int, high: int)
    requires low <= high && v <= w
    ensures Rank(TierAtMost(w, low, high)) <= Rank(TierAtMost(v, low, high))
  {
  }

  function MedicareTier(score: int): Tier {
    TierAtLeast(score, 70, LowScoreBound)
  }

  /** "Good" from 70, "Fair" from 50, "Needs Attention" below. */
  function MedicareLabel(score: int): (text: string)
    ensures text == "Good" <==> score >= 70
    ensures text == "Fair" <==> LowScoreBound <= score < 70
    ensures text == "Needs Attention" <==> score < LowScoreBound
  {
    match MedicareTier(score)
    case Green => "Good"
    case Yellow => "Fair"
    case Red => "Needs Attention"
  }

  /** Anxiety and stress share their bands: "Low" up to 3, "Moderate" up to 6, "High" above. */
  function LevelLabel(level: int): (text: string)
    ensures text == "Low" <==> level <= 3
    ensures text == "Moderate" <==> 3 < level <= 6
    ensures text == "High" <==> level > 6
  {
    match TierAtMost(level, 3, 6)
    case Green => "Low"
    case Yellow => "Moderate"
    case Red => "High"
  }

  /** "Positive" from 7, "Neutral" from 5, "Low" below. */
  function MoodLabel(mood: int): (text: string)
    ensures text == "Positive" <==> mood >= 7
    ensures text == "Neutral" <==> 5 <= mood < 7
    ensures text == "Low" <==> mood < 5
  {
    match TierAtLeast(mood, 7, 5)
    case Green => "Positive"
    case Yellow => "Neutral"
    case Red => "Low"
  }

  /** "Good" from 7, "Fair" from 5, "Poor" below. */
  function SleepLabel(sleep: int): (text: string)
    ensures text == "Good" <==> sleep >= 7
    ensures text == "Fair" <==> 5 <= sleep < 7
    ensures text == "Poor" <==> sleep < 5
  {
    match TierAtLeast(sleep, 7, 5)
    case Green => "Good"
    case Yellow => "Fair"
    case Red => "Poor"
  }

  /** The figures with a Medicare Score below 50 count as low; no figures are not low. */
  predicate HasLowScore(data: Option<MentalHealthData>) {
    data.Some? && data.value.medicareScore < LowScoreBound
  }

  /** A low score is exactly one whose band reads "Needs Attention". */
  lemma LowScoreNeedsAttention(data: MentalHealthData)
    ensures HasLowScore(Some(data)) <==> MedicareLabel(data.medicareScore) == "Needs Attention"
  {
  }

  /** The default figures read Good, Moderate anxiety, Moderate stress, Poor sleep and Neutral mood. */
  lemma DefaultBands()
    ensures MedicareLabel(DefaultData.medicareScore) == "Good"
    ensures LevelLabel(DefaultData.anxietyLevel) == "Moderate" && LevelLabel(DefaultData.stressLevel) == "Moderate"
    ensures SleepLabel(DefaultData.sleepQuality) == "Poor" && MoodLabel(DefaultData.moodScore) == "Neutral"
    ensures !HasLowScore(Some(DefaultData))
  {
  }

  /**
   Any total the questionnaire can store (0 to 15) becomes a Medicare Score
   between 70 and 100, which reads "Good", is not low, and does not open the
   support dialog: on the dashboard that dialog and the "Needs Attention" band
   cannot be reached from an assessment.
   */
  lemma AssessmentScoresReadGood(total: int)
    requires 0 <= total <= Questionnaire.MaxScore
    ensures 70 <= MedicareFromAssessment(total) <= 100
    ensures MedicareLabel(MedicareFromAssessment(total)) == "Good"
    ensures !OpensModal(total)
    ensures !HasLowScore(Some(DefaultData.(medicareScore := MedicareFromAssessment(total))))
  {
  }

  // ---------------------------------------------------------------------------
  // The page

  /** The body a confirmed booking posts to the booking endpoint. */
  datatype BookingRequest = BookingRequest(
    userEmail: Option<string>,
    userName: Option<string>,
    date: string,
    time: string,
    notes: string,
    counsellorEmail: string)

  const CounsellorEmail: string := "counsellor@example.com"

  /** The toast a step raises, if any. */
  datatype Notice = NoNotice | ScoreUpdated | BookingSucceeded | BookingFailed

  class Page {
    var data: Option<MentalHealthData>
    var loading: bool
    var showBookingModal: bool
    var showBookingForm: bool
    var bookingLoading: bool
    /** The mounted booking form, present exactly while it is shown. */
    var form: BookingForm.Form?

    ghost predicate Valid()
      reads this
    {
      showBookingForm <==> form != null
    }

    /** Before the data is fetched: spinner on, no dialog, no form, nothing under way. */
    constructor ()
      ensures Valid()
      ensures data == None && loading && !showBookingModal && !showBookingForm && !bookingLoading
    {
      data := None;
      loading := true;
      showBookingModal := false;
      showBookingForm := false;
      bookingLoading := false;
      form := null;
    }

    /** The spinner replaces the page while loading or before any figures exist. */
    predicate ShowsSpinner()
      reads this
    {
      loading || data.None?
    }

    /** The support dialog is on screen, showing the current Medicare Score. */
    predicate ModalVisible()
      reads this
    {
      !ShowsSpinner() && showBookingModal
    }

    /**
     The page's data load: the default figures, with the Medicare Score taken
     from a total the questionnaire stored, which is then removed from storage
     (so it is used once); a stored total above 25 also opens the support
     dialog and any stored total raises the "score updated" toast.
     */
    method FetchData(storage: Storage.LocalStorage) returns (notice: Notice)
      requires Valid()
      modifies this, storage
      ensures Valid()
      ensures !loading && !ShowsSpinner()
      ensures storage.latestAssessmentScore == None
      ensures old(storage.latestAssessmentScore).None? ==>
                && data == Some(DefaultData) && showBookingModal == old(showBookingModal) && notice == NoNotice
                && ModalVisible() == old(showBookingModal)
      ensures old(storage.latestAssessmentScore).Some? ==>
                var total := old(storage.latestAssessmentScore).value;
                && data == Some(DefaultData.(medicareScore := MedicareFromAssessment(total)))
                && showBookingModal == (old(showBookingModal) || OpensModal(total))
                && (OpensModal(total) ==> ModalVisible())
                && notice == ScoreUpdated
      ensures showBookingForm == old(showBookingForm) && bookingLoading == old(bookingLoading) && form == old(form)
    {
      loading := true;
      var fetched := DefaultData;
      notice := NoNotice;
      var stored := storage.GetItem();
      if stored.Some? {
        var total := stored.value;
        fetched := fetched.(medicareScore := MedicareFromAssessment(total));
        storage.RemoveItem();
        if total > ModalThreshold {
          showBookingModal := true;
        }
        notice := ScoreUpdated;
      }
      data := Some(fetched);
      loading := false;
    }

    /** Shows the booking form, mounting a fresh one unless it is already shown. */
    method ShowForm()
      requires Valid()
      modifies this
      ensures Valid() && showBookingForm
      ensures old(showBookingForm) ==> form == old(form)
      ensures !old(showBookingForm) ==> fresh(form) && form.selectedDate == "" && form.selectedTime == "" && form.notes == ""
      ensures data == old(data) && loading == old(loading) && showBookingModal == old(showBookingModal)
      ensures bookingLoading == old(bookingLoading)
    {
      if !showBookingForm {
        form := new BookingForm.Form();
        showBookingForm := true;
      }
    }

    /** Hides the booking form, discarding what was picked in it. */
    method HideForm()
      requires Valid()
      modifies this
      ensures Valid() && !showBookingForm
      ensures data == old(data) && loading == old(loading) && showBookingModal == old(showBookingModal)
      ensures bookingLoading == old(bookingLoading)
    {
      showBookingForm := false;
      form := null;
    }

    /** The "Book a consultation" button: the form is shown. */
    method HandleBookConsultation()
      requires Valid()
      modifies this
      ensures Valid() && showBookingForm
      ensures !old(showBookingForm) ==> fresh(form) && !form.Ready()
      ensures old(showBookingForm) ==> form == old(form)
      ensures data == old(data) && loading == old(loading) && showBookingModal == old(showBookingModal)
      ensures bookingLoading == old(bookingLoading)
    {
      ShowForm();
    }

    /** The dialog's confirm button: the dialog closes and the form is shown. */
    method HandleBookingModalConfirm()
      requires Valid()
      modifies this
      ensures Valid() && !showBookingModal && showBookingForm
      ensures old(showBookingForm) ==> form == old(form)
      ensures !old(showBookingForm) ==> fresh(form) && !form.Ready()
      ensures data == old(data) && loading == old(loading) && bookingLoading == old(bookingLoading)
    {
      showBookingModal := false;
      ShowForm();
    }

    /** The dialog's cancel button: the dialog closes, nothing else changes. */
    method HandleBookingModalCancel()
      modifies this
      ensures !showBookingModal
      ensures data == old(data) && loading == old(loading) && showBookingForm == old(showBookingForm)
      ensures bookingLoading == old(bookingLoading) && form == old(form)
    {
      showBookingModal := false;
    }

    /**
     The form's cancel button. It is disabled while a booking is under way, so
     a click then does nothing; otherwise the form closes.
     */
    method CancelForm()
      requires Valid()
      modifies this
      ensures Valid()
      ensures showBookingForm == (old(showBookingForm) && BookingForm.CancelDisabled(bookingLoading))
      ensures old(bookingLoading) ==> form == old(form)
      ensures data == old(data) && loading == old(loading) && showBookingModal == old(showBookingModal)
      ensures bookingLoading == old(bookingLoading)
    {
      if !BookingForm.CancelDisabled(bookingLoading) {
        HideForm();
      }
    }

    /**
     `handleConfirmBooking` up to the request: booking marked under way, and
     the request built from the user's address and name, the form's date, time
     and notes, and the fixed counsellor address.
     */
    method StartConfirmBooking(booking: BookingForm.BookingData, userEmail: Option<string>, userName: Option<string>)
      returns (request: BookingRequest)
      modifies this
      ensures bookingLoading
      ensures request.date == booking.date && request.time == booking.time && request.notes == booking.notes
      ensures request.userEmail == userEmail && request.userName == userName
      ensures request.counsellorEmail == CounsellorEmail
      ensures data == old(data) && loading == old(loading) && showBookingModal == old(showBookingModal)
      ensures showBookingForm == old(showBookingForm) && form == old(form)
    {
      bookingLoading := true;
      request := BookingRequest(userEmail, userName, booking.date, booking.time, booking.notes, CounsellorEmail);
    }

    /**
     `handleConfirmBooking` after the response: a success closes the form and
     the dialog; a failure (a refused request or a network error) keeps both
     as they were; either way the booking is no longer under way.
     */
    method FinishConfirmBooking(responseOk: bool) returns (notice: Notice)
      requires Valid()
      modifies this
      ensures Valid() && !bookingLoading
      ensures responseOk ==> !showBookingForm && !showBookingModal && notice == BookingSucceeded
      ensures !responseOk ==>
                && showBookingForm == old(showBookingForm) && showBookingModal == old(showBookingModal)
                && form == old(form) && notice == BookingFailed
      ensures data == old(data) && loading == old(loading)
    {
      if responseOk {
        notice := BookingSucceeded;
        showBookingForm := false;
        form := null;
        showBookingModal := false;
      } else {
        notice := BookingFailed;
      }
      bookingLoading := false;
    }

    /**
     The form's submit button pressed on the page. A disabled button (booking
     under way, or no date or time picked) does nothing; otherwise the form's
     data goes out in a booking request carrying the picked date and time and
     the user's details; a user who has an address books under the address the
     form shows.
     */
    method SubmitForm(userEmail: Option<string>, userName: Option<string>) returns (request: Option<BookingRequest>)
      requires Valid() && showBookingForm
      modifies this
      ensures Valid() && form == old(form) && showBookingForm
      ensures request.Some? <==> !old(form.SubmitDisabled(bookingLoading))
      ensures request.Some? ==>
                && request.value.date == form.selectedDate && request.value.time == form.selectedTime
                && request.value.notes == form.notes && request.value.counsellorEmail == CounsellorEmail
                && request.value.userEmail == userEmail && request.value.userName == userName
                && (userEmail.Some? ==> request.value.userEmail == Some(BookingForm.ShownEmail(userEmail)))
                && bookingLoading
      ensures request.None? ==> bookingLoading == old(bookingLoading)
      ensures showBookingModal == old(showBookingModal) && data == old(data) && loading == old(loading)
    {
      request := None;
      if !form.SubmitDisabled(bookingLoading) {
        var submitted := form.HandleSubmit();
        var sent := StartConfirmBooking(submitted.value, userEmail, userName);
        request := Some(sent);
      }
    }
  }
}
