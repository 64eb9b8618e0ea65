/**
 The booking calendar: one-hour slots from 9:00 to 17:00 on each weekday of
 the seven days starting at the anchor day, each marked available or not, the
 sorted list of the dates that have slots, and the guard on clicking a slot.

 A date is a day number; its weekday is the anchor's weekday advanced by the
 day offset, modulo 7 (0 is Sunday, 6 is Saturday). Availability, a random draw
 per slot in the page, is given by the caller as the set of (day offset, hour)
 pairs that came out available.
 */
module BookingCalendar {
  import opened Wrappers
  import opened Collections

  /** 0 = Sunday, 1 = Monday, ..., 6 = Saturday. */
  type Weekday = d: int | 0 <= d < 7

  type Day = nat

  /** Whether the slot for (day offset, hour) is offered as available. */
  type Availability = set<(nat, nat)>

  /**
   A slot: its day, the hour it starts at, and whether it is offered. The
   page stores the slot's time as its label text; here the slot keeps the
   hour, and `Time` renders the same label.
   */
  datatype TimeSlot = TimeSlot(date: Day, hour: nat, available: bool) {
    /** The slot's time text, `"<hour>:00 - <hour+1>:00"`. */
    function Time(): string {
      TimeLabel(hour)
    }
  }

  const DaysShown: nat := 7
  const StartHour: nat := 9
  const EndHour: nat := 17
  const SlotsPerDay: nat := EndHour - StartHour

  /** The weekday `offset` days after (or, if negative, before) the anchor. */
  function WeekdayAt(anchorWeekday: Weekday, offset: int): Weekday {
    (anchorWeekday + offset) % 7
  }

  /** The weekday of day `d`, counted from the anchor day and its weekday. */
  function WeekdayOfDate(anchorDay: Day, anchorWeekday: Weekday, d: Day): Weekday {
    WeekdayAt(anchorWeekday, d - anchorDay)
  }

  predicate IsWeekend(d: Weekday) {
    d == 0 || d == 6
  }

  // ---------------------------------------------------------------------------
  // Labels

  function DigitChar(d: nat): char
    requires d < 10
  {
    ('0' as int + d) as char
  }

  /** The decimal digits of `n`, as a template literal prints a number. */
  function NatToString(n: nat): (s: string)
    ensures |s| >= 1
    ensures n >= 10 ==> |s| >= 2
  {
    if n < 10 then [DigitChar(n)] else NatToString(n / 10) + [DigitChar(n % 10)]
  }

  /** Different numbers print differently. */
  lemma {:induction false} NatToStringInjective(a: nat, b: nat)
    requires NatToString(a) == NatToString(b)
    ensures a == b
  {
    if a >= 10 && b >= 10 {
      var sa, sb := NatToString(a), NatToString(b);
      assert sa[|sa| - 1] == DigitChar(a % 10) && sb[|sb| - 1] == DigitChar(b % 10);
      assert sa[..|sa| - 1] == NatToString(a / 10) && sb[..|sb| - 1] == NatToString(b / 10);
      NatToStringInjective(a / 10, b / 10);
    }
  }

  /** A printed number consists of decimal digits only. */
  lemma {:induction false} NatToStringDigits(n: nat)
    ensures forall i :: 0 <= i < |NatToString(n)| ==> '0' <= NatToString(n)[i] <= '9'
  {
    if n >= 10 {
      NatToStringDigits(n / 10);
    }
  }

  /** Two numbers followed by the same colon-led text print equal only if they are equal. */
  lemma TaggedNumberInjective(a: nat, b: nat, ta: string, tb: string)
    requires ta != [] && tb != [] && ta[0] == ':' && tb[0] == ':'
    requires NatToString(a) + ta == NatToString(b) + tb
    ensures a == b && ta == tb
  {
    var sa, sb := NatToString(a), NatToString(b);
    NatToStringDigits(a);
    NatToStringDigits(b);
    var joined := sa + ta;
    assert joined[|sa|] == ':' && joined[|sb|] == ':';
    assert forall i :: 0 <= i < |sa| ==> joined[i] == sa[i];
    assert forall i :: 0 <= i < |sb| ==> joined[i] == sb[i];
    assert |sa| == |sb|;
    assert sa == (sa + ta)[..|sa|] && sb == (sb + tb)[..|sb|];
    assert ta == (sa + ta)[|sa|..] && tb == (sb + tb)[|sb|..];
    NatToStringInjective(a, b);
  }

  /** The label of the slot that starts at `hour`: `"<hour>:00 - <hour+1>:00"`. */
  function TimeLabel(hour: nat): string {
    NatToString(hour) + LabelTail(hour)
  }

  /** What follows the start hour in a label: `":00 - <hour+1>:00"`. */
  function LabelTail(hour: nat): string {
    ":00 - " + NatToString(hour + 1) + ":00"
  }

  /** Different start hours get different labels. */
  lemma TimeLabelInjective(h: nat, g: nat)
    requires TimeLabel(h) == TimeLabel(g)
    ensures h == g
  {
    TaggedNumberInjective(h, g, LabelTail(h), LabelTail(g));
  }

  lemma TimeLabelExamples()
    ensures TimeLabel(9) == "9:00 - 10:00"
    ensures TimeLabel(16) == "16:00 - 17:00"
  {
  }

  /** The date text handed to the booking form; distinct days get distinct texts. */
  function DateLabel(d: Day): (s: string)
    ensures s != []
  {
    NatToString(d)
  }

  // ---------------------------------------------------------------------------
  // The grid, as the specification of the generator

  /** The slot of the day at `offset` that starts at `hour`. */
  function SlotFor(anchorDay: Day, avail: Availability, offset: nat, hour: nat): TimeSlot {
    TimeSlot(anchorDay + offset, hour, (offset, hour) in avail)
  }

  /** The first `count` slots of the day at `offset`, one per hour from StartHour, ascending. */
  function HourSlots(anchorDay: Day, avail: Availability, offset: nat, count: nat): seq<TimeSlot> {
    if count == 0 then []
    else HourSlots(anchorDay, avail, offset, count - 1) + [SlotFor(anchorDay, avail, offset, StartHour + count - 1)]
  }

  /** How many slots the day at `offset` offers: none on a weekend. */
  function OpenHours(anchorWeekday: Weekday, offset: nat): nat {
    if IsWeekend(WeekdayAt(anchorWeekday, offset)) then 0 else SlotsPerDay
  }

  /** The slots of the day at `offset`. */
  function DaySlots(anchorDay: Day, anchorWeekday: Weekday, avail: Availability, offset: nat): seq<TimeSlot> {
    HourSlots(anchorDay, avail, offset, OpenHours(anchorWeekday, offset))
  }

  /** The slots of the first `days` days, day by day. */
  function Grid(anchorDay: Day, anchorWeekday: Weekday, avail: Availability, days: nat): seq<TimeSlot> {
    if days == 0 then []
    else Grid(anchorDay, anchorWeekday, avail, days - 1) + DaySlots(anchorDay, anchorWeekday, avail, days - 1)
  }

  /** `generateTimeSlots`: the two nested loops that push one slot per weekday hour. */
  method GenerateTimeSlots(anchorDay: Day, anchorWeekday: Weekday, avail: Availability) returns (slots: seq<TimeSlot>)
    ensures slots == Grid(anchorDay, anchorWeekday, avail, DaysShown)
    ensures |slots| == 5 * SlotsPerDay
    ensures forall k :: 0 <= k < |slots| ==> !IsWeekend(WeekdayOfDate(anchorDay, anchorWeekday, slots[k].date))
  {
    slots := [];
    var i := 0;
    while i < DaysShown
      invariant 0 <= i <= DaysShown
      invariant slots == Grid(anchorDay, anchorWeekday, avail, i)
    {
      var date := anchorDay + i;
      var weekend := IsWeekend(WeekdayAt(anchorWeekday, i));
      var hour := StartHour;
      while hour < EndHour
        invariant StartHour <= hour <= EndHour
        invariant weekend ==> slots == Grid(anchorDay, anchorWeekday, avail, i)
        invariant !weekend ==> slots == Grid(anchorDay, anchorWeekday, avail, i) + HourSlots(anchorDay, avail, i, hour - StartHour)
      {
        if !weekend {
          HourStep(anchorDay, avail, i, hour);
          slots := slots + [TimeSlot(date, hour, (i, hour) in avail)];
        }
        hour := hour + 1;
      }
      DayStep(anchorDay, anchorWeekday, avail, i);
      i := i + 1;
    }
    WeekFacts(anchorDay, anchorWeekday, avail);
  }

  /** Pushing the slot for `hour` extends the day's slots by one. */
  lemma HourStep(anchorDay: Day, avail: Availability, offset: nat, hour: nat)
    requires StartHour <= hour
    ensures HourSlots(anchorDay, avail, offset, hour - StartHour) + [TimeSlot(anchorDay + offset, hour, (offset, hour) in avail)] ==
            HourSlots(anchorDay, avail, offset, hour + 1 - StartHour)
  {
  }

  /** One more day of the grid: that day's eight slots, or none on a weekend. */
  lemma DayStep(anchorDay: Day, anchorWeekday: Weekday, avail: Availability, offset: nat)
    ensures Grid(anchorDay, anchorWeekday, avail, offset + 1) ==
            Grid(anchorDay, anchorWeekday, avail, offset) +
            (if IsWeekend(WeekdayAt(anchorWeekday, offset)) then [] else HourSlots(anchorDay, avail, offset, SlotsPerDay))
  {
  }

  /** The generated week has forty slots, none of them on a Saturday or a Sunday. */
  lemma WeekFacts(anchorDay: Day, anchorWeekday: Weekday, avail: Availability)
    ensures |Grid(anchorDay, anchorWeekday, avail, DaysShown)| == 5 * SlotsPerDay
    ensures forall k :: 0 <= k < |Grid(anchorDay, anchorWeekday, avail, DaysShown)| ==>
              !IsWeekend(WeekdayOfDate(anchorDay, anchorWeekday, Grid(anchorDay, anchorWeekday, avail, DaysShown)[k].date))
  {
    var g := Grid(anchorDay, anchorWeekday, avail, DaysShown);
    GridLength(anchorDay, anchorWeekday, avail, DaysShown);
    FiveWeekdaysAWeek(anchorWeekday);
    forall k | 0 <= k < |g| ensures !IsWeekend(WeekdayOfDate(anchorDay, anchorWeekday, g[k].date)) {
      var o, h := GridAt(anchorDay, anchorWeekday, avail, DaysShown, k);
      assert WeekdayOfDate(anchorDay, anchorWeekday, g[k].date) == WeekdayAt(anchorWeekday, o);
    }
  }

  // ---------------------------------------------------------------------------
  // Properties of the grid

  /** A weekday's slots: one per start hour, ascending, with its label and its availability. */
  lemma {:induction false} HourSlotsShape(anchorDay: Day, avail: Availability, offset: nat, count: nat)
    ensures |HourSlots(anchorDay, avail, offset, count)| == count
    ensures forall k :: 0 <= k < count ==>
              HourSlots(anchorDay, avail, offset, count)[k] == SlotFor(anchorDay, avail, offset, StartHour + k)
  {
    if count > 0 {
      HourSlotsShape(anchorDay, avail, offset, count - 1);
    }
  }

  /** A day offers as many slots as it has open hours. */
  lemma DaySlotsLength(anchorDay: Day, anchorWeekday: Weekday, avail: Availability, offset: nat)
    ensures |DaySlots(anchorDay, anchorWeekday, avail, offset)| == OpenHours(anchorWeekday, offset)
  {
    HourSlotsShape(anchorDay, avail, offset, OpenHours(anchorWeekday, offset));
  }

  /** The i-th slot of a day is its slot for hour StartHour + i, and only a weekday has one. */
  lemma DaySlotAt(anchorDay: Day, anchorWeekday: Weekday, avail: Availability, offset: nat, i: nat)
    requires i < |DaySlots(anchorDay, anchorWeekday, avail, offset)|
    ensures !IsWeekend(WeekdayAt(anchorWeekday, offset)) && i < SlotsPerDay
    ensures DaySlots(anchorDay, anchorWeekday, avail, offset)[i] == SlotFor(anchorDay, avail, offset, StartHour + i)
  {
    HourSlotsShape(anchorDay, avail, offset, OpenHours(anchorWeekday, offset));
  }

  /** Every weekday among the shown days gets exactly eight slots, 9:00 to 16:00 start, in that order. */
  lemma WeekdaySlots(anchorDay: Day, anchorWeekday: Weekday, avail: Availability, offset: nat)
    requires !IsWeekend(WeekdayAt(anchorWeekday, offset))
    ensures |DaySlots(anchorDay, anchorWeekday, avail, offset)| == 8
    ensures forall k :: 0 <= k < 8 ==>
              DaySlots(anchorDay, anchorWeekday, avail, offset)[k] ==
              TimeSlot(anchorDay + offset, 9 + k, (offset, 9 + k) in avail)
  {
    HourSlotsShape(anchorDay, avail, offset, OpenHours(anchorWeekday, offset));
  }

  /** How many of the first n days, counted from the anchor, are weekdays. */
  function WeekdayCount(anchorWeekday: Weekday, n: nat): nat {
    if n == 0 then 0
    else WeekdayCount(anchorWeekday, n - 1) + (if IsWeekend(WeekdayAt(anchorWeekday, n - 1)) then 0 else 1)
  }

  lemma {:induction false} GridLength(anchorDay: Day, anchorWeekday: Weekday, avail: Availability, n: nat)
    ensures |Grid(anchorDay, anchorWeekday, avail, n)| == SlotsPerDay * WeekdayCount(anchorWeekday, n)
  {
    if n > 0 {
      GridLength(anchorDay, anchorWeekday, avail, n - 1);
      HourSlotsShape(anchorDay, avail, n - 1, OpenHours(anchorWeekday, n - 1));
    }
  }

  /** Any seven consecutive days hold exactly five weekdays. */
  lemma FiveWeekdaysAWeek(anchorWeekday: Weekday)
    ensures WeekdayCount(anchorWeekday, DaysShown) == 5
  {
    var w := anchorWeekday;
    assert WeekdayCount(w, 1) == (if IsWeekend(WeekdayAt(w, 0)) then 0 else 1);
    assert WeekdayCount(w, 2) == WeekdayCount(w, 1) + (if IsWeekend(WeekdayAt(w, 1)) then 0 else 1);
    assert WeekdayCount(w, 3) == WeekdayCount(w, 2) + (if IsWeekend(WeekdayAt(w, 2)) then 0 else 1);
    assert WeekdayCount(w, 4) == WeekdayCount(w, 3) + (if IsWeekend(WeekdayAt(w, 3)) then 0 else 1);
    assert WeekdayCount(w, 5) == WeekdayCount(w, 4) + (if IsWeekend(WeekdayAt(w, 4)) then 0 else 1);
    assert WeekdayCount(w, 6) == WeekdayCount(w, 5) + (if IsWeekend(WeekdayAt(w, 5)) then 0 else 1);
    assert WeekdayCount(w, 7) == WeekdayCount(w, 6) + (if IsWeekend(WeekdayAt(w, 6)) then 0 else 1);
  }

  /**
   Every generated slot is the slot of some weekday among the first n days at
   some hour from 9 to 16.
   */
  lemma {:induction false} GridAt(anchorDay: Day, anchorWeekday: Weekday, avail: Availability, n: nat, k: nat)
    returns (offset: nat, hour: nat)
    requires k < |Grid(anchorDay, anchorWeekday, avail, n)|
    ensures offset < n && !IsWeekend(WeekdayAt(anchorWeekday, offset))
    ensures StartHour <= hour < EndHour
    ensures Grid(anchorDay, anchorWeekday, avail, n)[k] == SlotFor(anchorDay, avail, offset, hour)
  {
    var prev := Grid(anchorDay, anchorWeekday, avail, n - 1);
    var last := DaySlots(anchorDay, anchorWeekday, avail, n - 1);
    assert Grid(anchorDay, anchorWeekday, avail, n) == prev + last;
    if k < |prev| {
      offset, hour := GridAt(anchorDay, anchorWeekday, avail, n - 1, k);
    } else {
      DaySlotAt(anchorDay, anchorWeekday, avail, n - 1, k - |prev|);
      offset, hour := n - 1, StartHour + (k - |prev|);
    }
  }

  /** A position in the newest day's slots: that day, at the hour its place within the day gives. */
  lemma GridLastDayAt(anchorDay: Day, anchorWeekday: Weekday, avail: Availability, n: nat, k: nat)
    requires n > 0 && |Grid(anchorDay, anchorWeekday, avail, n - 1)| <= k < |Grid(anchorDay, anchorWeekday, avail, n)|
    ensures Grid(anchorDay, anchorWeekday, avail, n)[k] ==
            SlotFor(anchorDay, avail, n - 1, StartHour + (k - |Grid(anchorDay, anchorWeekday, avail, n - 1)|))
  {
    var prev := Grid(anchorDay, anchorWeekday, avail, n - 1);
    var last := DaySlots(anchorDay, anchorWeekday, avail, n - 1);
    assert Grid(anchorDay, anchorWeekday, avail, n) == prev + last;
    DaySlotAt(anchorDay, anchorWeekday, avail, n - 1, k - |prev|);
  }

  /**
   The slots come day after day and, within a day, hour after hour: of two
   positions, the earlier one holds an earlier day, or the same day at an
   earlier hour.
   */
  lemma {:induction false} GridOrdered(anchorDay: Day, anchorWeekday: Weekday, avail: Availability, n: nat, j: nat, k: nat)
    returns (dayJ: nat, hourJ: nat, dayK: nat, hourK: nat)
    requires j < k < |Grid(anchorDay, anchorWeekday, avail, n)|
    ensures Grid(anchorDay, anchorWeekday, avail, n)[j] == SlotFor(anchorDay, avail, dayJ, hourJ)
    ensures Grid(anchorDay, anchorWeekday, avail, n)[k] == SlotFor(anchorDay, avail, dayK, hourK)
    ensures dayJ < dayK || (dayJ == dayK && hourJ < hourK)
  {
    var prev := Grid(anchorDay, anchorWeekday, avail, n - 1);
    var g := Grid(anchorDay, anchorWeekday, avail, n);
    assert g == prev + DaySlots(anchorDay, anchorWeekday, avail, n - 1);
    if k < |prev| {
      assert g[j] == prev[j] && g[k] == prev[k];
      dayJ, hourJ, dayK, hourK := GridOrdered(anchorDay, anchorWeekday, avail, n - 1, j, k);
    } else {
      GridLastDayAt(anchorDay, anchorWeekday, avail, n, k);
      dayK, hourK := n - 1, StartHour + (k - |prev|);
      if j < |prev| {
        assert g[j] == prev[j];
        dayJ, hourJ := GridAt(anchorDay, anchorWeekday, avail, n - 1, j);
      } else {
        GridLastDayAt(anchorDay, anchorWeekday, avail, n, j);
        dayJ, hourJ := n - 1, StartHour + (j - |prev|);
      }
    }
  }

  // ---------------------------------------------------------------------------
  // Per-date view and the date list

  /** Some slot falls on day `d`. */
  ghost predicate HasSlotOn(slots: seq<TimeSlot>, d: int) {
    exists k :: 0 <= k < |slots| && slots[k].date == d
  }

  /** `timeSlots.filter(slot => slot.date === date)`: the buttons shown under one date. */
  function SlotsOn(slots: seq<TimeSlot>, d: Day): seq<TimeSlot> {
    if slots == [] then []
    else (if slots[0].date == d then [slots[0]] else []) + SlotsOn(slots[1..], d)
  }

  /** The slots shown under a date are exactly the generated slots on that date. */
  lemma {:induction false} SlotsOnMembers(slots: seq<TimeSlot>, d: Day)
    ensures forall t :: t in SlotsOn(slots, d) <==> t in slots && t.date == d
  {
    if slots != [] {
      SlotsOnMembers(slots[1..], d);
      assert slots == [slots[0]] + slots[1..];
    }
  }

  /** The dates of one day's slots are that day. */
  lemma DaySlotsDates(anchorDay: Day, anchorWeekday: Weekday, avail: Availability, offset: nat)
    ensures forall k :: 0 <= k < |DaySlots(anchorDay, anchorWeekday, avail, offset)| ==>
              DaySlots(anchorDay, anchorWeekday, avail, offset)[k].date == anchorDay + offset
  {
    HourSlotsShape(anchorDay, avail, offset, OpenHours(anchorWeekday, offset));
  }

  lemma {:induction false} SlotsOnAppend(a: seq<TimeSlot>, b: seq<TimeSlot>, d: Day)
    ensures SlotsOn(a + b, d) == SlotsOn(a, d) + SlotsOn(b, d)
  {
    if a == [] {
      assert a + b == b;
    } else {
      var head := if a[0].date == d then [a[0]] else [];
      assert (a + b)[0] == a[0] && (a + b)[1..] == a[1..] + b;
      SlotsOnAppend(a[1..], b, d);
      calc {
        SlotsOn(a + b, d);
        head + SlotsOn(a[1..] + b, d);
        head + (SlotsOn(a[1..], d) + SlotsOn(b, d));
        (head + SlotsOn(a[1..], d)) + SlotsOn(b, d);
      }
    }
  }

  lemma {:induction false} SlotsOnUniform(s: seq<TimeSlot>, d: Day, e: Day)
    requires forall k :: 0 <= k < |s| ==> s[k].date == e
    ensures SlotsOn(s, d) == if d == e then s else []
  {
    if s != [] {
      SlotsOnUniform(s[1..], d, e);
      assert s == [s[0]] + s[1..];
    }
  }

  /** Every slot of the first n days falls on one of them. */
  lemma GridDatesBelow(anchorDay: Day, anchorWeekday: Weekday, avail: Availability, n: nat)
    ensures forall k :: 0 <= k < |Grid(anchorDay, anchorWeekday, avail, n)| ==>
              anchorDay <= Grid(anchorDay, anchorWeekday, avail, n)[k].date < anchorDay + n
  {
    var g := Grid(anchorDay, anchorWeekday, avail, n);
    forall k | 0 <= k < |g| ensures anchorDay <= g[k].date < anchorDay + n {
      var o, h := GridAt(anchorDay, anchorWeekday, avail, n, k);
    }
  }

  /** Under the date of `b`, whose slots all fall on it, nothing of an `a` without such slots is listed. */
  lemma {:induction false} SlotsOnSkip(a: seq<TimeSlot>, b: seq<TimeSlot>, d: Day)
    requires forall k :: 0 <= k < |a| ==> a[k].date != d
    requires forall k :: 0 <= k < |b| ==> b[k].date == d
    ensures SlotsOn(a + b, d) == b
  {
    if a == [] {
      assert a + b == b;
      SlotsOnUniform(b, d, d);
    } else {
      assert (a + b)[0] == a[0] && (a + b)[1..] == a[1..] + b;
      SlotsOnSkip(a[1..], b, d);
    }
  }

  /** Generating a later day adds nothing under an earlier day. */
  lemma GridSlotsKeep(anchorDay: Day, anchorWeekday: Weekday, avail: Availability, n: nat, offset: nat)
    requires offset < n - 1
    ensures SlotsOn(Grid(anchorDay, anchorWeekday, avail, n), anchorDay + offset) ==
            SlotsOn(Grid(anchorDay, anchorWeekday, avail, n - 1), anchorDay + offset)
  {
    var d := anchorDay + offset;
    var prev := Grid(anchorDay, anchorWeekday, avail, n - 1);
    var last := DaySlots(anchorDay, anchorWeekday, avail, n - 1);
    assert Grid(anchorDay, anchorWeekday, avail, n) == prev + last;
    SlotsOnAppend(prev, last, d);
    DaySlotsDates(anchorDay, anchorWeekday, avail, n - 1);
    SlotsOnUniform(last, d, anchorDay + (n - 1));
    assert SlotsOn(prev, d) + [] == SlotsOn(prev, d);
  }

  /** Under the newest day, the grid lists exactly that day's slots. */
  lemma GridSlotsLast(anchorDay: Day, anchorWeekday: Weekday, avail: Availability, offset: nat)
    ensures SlotsOn(Grid(anchorDay, anchorWeekday, avail, offset + 1), anchorDay + offset) ==
            DaySlots(anchorDay, anchorWeekday, avail, offset)
  {
    var d := anchorDay + offset;
    var prev := Grid(anchorDay, anchorWeekday, avail, offset);
    var last := DaySlots(anchorDay, anchorWeekday, avail, offset);
    assert Grid(anchorDay, anchorWeekday, avail, offset + 1) == prev + last;
    GridDatesBelow(anchorDay, anchorWeekday, avail, offset);
    DaySlotsDates(anchorDay, anchorWeekday, avail, offset);
    SlotsOnSkip(prev, last, d);
  }

  /**
   Under the date of the day at `offset`, the calendar lists exactly that day's
   slots: the eight hours in order on a weekday, nothing on a weekend.
   */
  lemma {:induction false} GridSlotsOnDay(anchorDay: Day, anchorWeekday: Weekday, avail: Availability, n: nat, offset: nat)
    requires offset < n
    ensures SlotsOn(Grid(anchorDay, anchorWeekday, avail, n), anchorDay + offset) ==
            DaySlots(anchorDay, anchorWeekday, avail, offset)
  {
    if offset < n - 1 {
      GridSlotsKeep(anchorDay, anchorWeekday, avail, n, offset);
      GridSlotsOnDay(anchorDay, anchorWeekday, avail, n - 1, offset);
    } else {
      assert n == offset + 1;
      GridSlotsLast(anchorDay, anchorWeekday, avail, offset);
    }
  }

  /** Every weekday among the first n days has a slot in the grid. */
  lemma {:induction false} GridHasDay(anchorDay: Day, anchorWeekday: Weekday, avail: Availability, n: nat, offset: nat)
    returns (k: nat)
    requires offset < n && !IsWeekend(WeekdayAt(anchorWeekday, offset))
    ensures k < |Grid(anchorDay, anchorWeekday, avail, n)|
    ensures Grid(anchorDay, anchorWeekday, avail, n)[k] == SlotFor(anchorDay, avail, offset, StartHour)
  {
    var prev := Grid(anchorDay, anchorWeekday, avail, n - 1);
    var last := DaySlots(anchorDay, anchorWeekday, avail, n - 1);
    assert Grid(anchorDay, anchorWeekday, avail, n) == prev + last;
    if offset < n - 1 {
      k := GridHasDay(anchorDay, anchorWeekday, avail, n - 1, offset);
    } else {
      DaySlotsLength(anchorDay, anchorWeekday, avail, offset);
      DaySlotAt(anchorDay, anchorWeekday, avail, offset, 0);
      k := |prev|;
    }
  }

  function DatesOf(slots: seq<TimeSlot>): (ds: seq<int>)
    ensures |ds| == |slots| && forall k :: 0 <= k < |slots| ==> ds[k] == slots[k].date
  {
    if slots == [] then [] else [slots[0].date] + DatesOf(slots[1..])
  }

  /**
   `Array.from(new Set(dates)).sort()`: each date that has a slot, once,
   in ascending order.
   */
  function UniqueDates(slots: seq<TimeSlot>): (ds: seq<int>)
    ensures StrictlySorted(ds)
    ensures forall d :: d in ds <==> HasSlotOn(slots, d)
  {
    var dates := DatesOf(slots);
    var distinct := Distinct(dates);
    SortKeepsNoDuplicates(distinct);
    SortedDistinctIsStrict(distinct);
    assert forall d :: d in dates <==> HasSlotOn(slots, d) by {
      forall d | d in dates ensures HasSlotOn(slots, d) {
        var k :| 0 <= k < |dates| && dates[k] == d;
      }
    }
    Sort(distinct)
  }

  /** Every date of the generated week is one of the seven shown days, and not a Saturday or a Sunday. */
  lemma GeneratedDatesShown(anchorDay: Day, anchorWeekday: Weekday, avail: Availability, d: Day)
    requires HasSlotOn(Grid(anchorDay, anchorWeekday, avail, DaysShown), d)
    ensures anchorDay <= d < anchorDay + DaysShown && !IsWeekend(WeekdayOfDate(anchorDay, anchorWeekday, d))
  {
    var g := Grid(anchorDay, anchorWeekday, avail, DaysShown);
    var k :| 0 <= k < |g| && g[k].date == d;
    var o, h := GridAt(anchorDay, anchorWeekday, avail, DaysShown, k);
    assert d - anchorDay == o;
  }

  /** Every weekday among the seven shown days has slots. */
  lemma ShownWeekdaysGenerated(anchorDay: Day, anchorWeekday: Weekday, avail: Availability, d: Day)
    requires anchorDay <= d < anchorDay + DaysShown && !IsWeekend(WeekdayOfDate(anchorDay, anchorWeekday, d))
    ensures HasSlotOn(Grid(anchorDay, anchorWeekday, avail, DaysShown), d)
  {
    var offset: nat := d - anchorDay;
    var k := GridHasDay(anchorDay, anchorWeekday, avail, DaysShown, offset);
    assert Grid(anchorDay, anchorWeekday, avail, DaysShown)[k].date == d;
  }

  /** The dates listed by the calendar are exactly the weekdays among the seven shown days. */
  lemma GeneratedDates(anchorDay: Day, anchorWeekday: Weekday, avail: Availability, d: Day)
    ensures d in UniqueDates(Grid(anchorDay, anchorWeekday, avail, DaysShown)) <==>
            anchorDay <= d < anchorDay + DaysShown && !IsWeekend(WeekdayOfDate(anchorDay, anchorWeekday, d))
  {
    if HasSlotOn(Grid(anchorDay, anchorWeekday, avail, DaysShown), d) {
      GeneratedDatesShown(anchorDay, anchorWeekday, avail, d);
    }
    if anchorDay <= d < anchorDay + DaysShown && !IsWeekend(WeekdayOfDate(anchorDay, anchorWeekday, d)) {
      ShownWeekdaysGenerated(anchorDay, anchorWeekday, avail, d);
    }
  }

  // ---------------------------------------------------------------------------
  // Clicking a slot

  /** The date and time a slot click passes to `onSelectSlot`. */
  datatype Selection = Selection(date: string, time: string)

  /** `slot.available && onSelectSlot(slot.date, slot.time)`: an unavailable slot does nothing. */
  function ClickSlot(slot: TimeSlot): (sel: Option<Selection>)
    ensures sel.Some? <==> slot.available
    ensures sel.Some? ==> sel.value == Selection(DateLabel(slot.date), slot.Time())
  {
    if slot.available then Some(Selection(DateLabel(slot.date), slot.Time())) else None
  }

  /** The date and time a click hands over identify the slot: two clicked slots with the same selection are the same slot. */
  lemma ClickIdentifiesSlot(s: TimeSlot, t: TimeSlot)
    requires ClickSlot(s).Some? && ClickSlot(t).Some? && ClickSlot(s) == ClickSlot(t)
    ensures s == t
  {
    NatToStringInjective(s.date, t.date);
    TimeLabelInjective(s.hour, t.hour);
  }

  /** A click on a generated slot hands over a non-empty date and time. */
  lemma ClickedGeneratedSlotIsComplete(anchorDay: Day, anchorWeekday: Weekday, avail: Availability, k: nat)
    requires k < |Grid(anchorDay, anchorWeekday, avail, DaysShown)|
    requires ClickSlot(Grid(anchorDay, anchorWeekday, avail, DaysShown)[k]).Some?
    ensures ClickSlot(Grid(anchorDay, anchorWeekday, avail, DaysShown)[k]).value.date != ""
    ensures ClickSlot(Grid(anchorDay, anchorWeekday, avail, DaysShown)[k]).value.time != ""
  {
    var o, h := GridAt(anchorDay, anchorWeekday, avail, DaysShown, k);
  }
}
