/**
 The consultation booking form: the date and time picked on the calendar and
 the free-text notes, a submit that hands all three to the page that owns the
 form once both a date and a time are picked, and the two buttons that are
 disabled while a booking is under way.
 */
module BookingForm {
  import opened Wrappers
  import opened BookingCalendar

  /** What the form hands to its `onSubmit` callback. */
  datatype BookingData = BookingData(date: string, time: string, notes: string)

  /** A slot button is highlighted when its date and time are the ones picked. */
  predicate IsHighlighted(selectedDate: string, selectedTime: string, slot: TimeSlot) {
    selectedDate == DateLabel(slot.date) && selectedTime == slot.Time()
  }

  /**
   After a click on an available slot, the highlighted buttons are exactly the
   ones for that slot's date and start hour.
   */
  lemma HighlightAfterClick(s: TimeSlot, t: TimeSlot)
    requires ClickSlot(s).Some?
    ensures IsHighlighted(ClickSlot(s).value.date, ClickSlot(s).value.time, t) <==> t.date == s.date && t.hour == s.hour
  {
    if IsHighlighted(ClickSlot(s).value.date, ClickSlot(s).value.time, t) {
      NatToStringInjective(s.date, t.date);
      TimeLabelInjective(s.hour, t.hour);
    }
  }

  class Form {
    var selectedDate: string
    var selectedTime: string
    var notes: string

    /** A freshly shown form has nothing picked and no notes. */
    constructor ()
      ensures selectedDate == "" && selectedTime == "" && notes == ""
    {
      selectedDate := "";
      selectedTime := "";
      notes := "";
    }

    /** Both a date and a time are picked (an empty string counts as not picked). */
    predicate Ready()
      reads this
    {
      selectedDate != "" && selectedTime != ""
    }

    /** The calendar's `onSelectSlot` callback: records the date and the time, keeps the notes. */
    method HandleSlotSelect(date: string, time: string)
      modifies this
      ensures selectedDate == date && selectedTime == time && notes == old(notes)
    {
      selectedDate := date;
      selectedTime := time;
    }

    /** Typing in the notes box replaces the notes and nothing else. */
    method SetNotes(text: string)
      modifies this
      ensures notes == text && selectedDate == old(selectedDate) && selectedTime == old(selectedTime)
    {
      notes := text;
    }

    /**
     A click on a slot button of the calendar: an unavailable slot changes
     nothing; an available one is picked, after which the form is ready to
     submit and exactly that slot's buttons are highlighted.
     */
    method ClickCalendarSlot(slot: TimeSlot)
      modifies this
      ensures !slot.available ==> selectedDate == old(selectedDate) && selectedTime == old(selectedTime)
      ensures slot.available ==> selectedDate == DateLabel(slot.date) && selectedTime == slot.Time() && Ready()
      ensures notes == old(notes)
      ensures slot.available ==> forall t :: IsHighlighted(selectedDate, selectedTime, t) <==> t.date == slot.date && t.hour == slot.hour
    {
      var sel := ClickSlot(slot);
      if sel.Some? {
        HandleSlotSelect(sel.value.date, sel.value.time);
        forall t ensures IsHighlighted(selectedDate, selectedTime, t) <==> t.date == slot.date && t.hour == slot.hour {
          HighlightAfterClick(slot, t);
        }
      }
    }

    /**
     The form's submit handler: it calls `onSubmit` (here: returns the data it
     would pass) exactly when a date and a time are picked, with the picked
     date and time and the current notes; it changes nothing.
     */
    method HandleSubmit() returns (submitted: Option<BookingData>)
      ensures submitted.Some? <==> Ready()
      ensures submitted.Some? ==> submitted.value == BookingData(selectedDate, selectedTime, notes)
    {
      if selectedDate != "" && selectedTime != "" {
        submitted := Some(BookingData(selectedDate, selectedTime, notes));
      } else {
        submitted := None;
      }
    }

    /** The submit button's `disabled` flag while `loading` is the parent's booking flag. */
    function SubmitDisabled(loading: bool): (disabled: bool)
      reads this
      ensures !disabled ==> Ready() && !loading
      ensures !loading && Ready() ==> !disabled
    {
      loading || selectedDate == "" || selectedTime == ""
    }
  }

  /** The cancel button is disabled exactly while a booking is under way. */
  function CancelDisabled(loading: bool): bool {
    loading
  }

  /** The email shown (read-only) in the form: the user's address, or empty when there is none. */
  function ShownEmail(userEmail: Option<string>): string {
    match userEmail
    case Some(e) => e
    case None => ""
  }
}
