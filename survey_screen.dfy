/**
 * The survey screen's day strip: seven numbered days followed by five star
 * days, one of which is selected.
 */
module SurveyScreen {
  import opened Numerals
  import opened Options

  /** One entry of the strip; star entries have no day number. */
  datatype DateItem = DateItem(
    id: string,
    dayNum: Option<nat>,
    isToday: bool,
    isCompleted: bool,
    isIncomplete: bool,
    isStar: bool)

  const NumberedDays := 7
  const StripLength := 12
  /** The id selected when the screen opens. */
  const InitialSelection := "3"

  /**
   * The strip the screen shows: twelve entries with ids "1".."12" in order;
   * the first seven are numbered days whose number is their position, the
   * rest are star days without a number; day 3 is today, day 2 completed, day 1 incomplete, and
   * no other entry carries any of those marks.
   */
  ghost predicate IsDayStrip(dates: seq<DateItem>) {
    && |dates| == StripLength
    && (forall k :: 0 <= k < |dates| ==> dates[k].id == DecimalString(k + 1))
    && (forall k :: 0 <= k < |dates| ==>
          (dates[k].isStar <==> k >= NumberedDays) &&
          (k < NumberedDays ==> dates[k].dayNum == Some(k + 1)) &&
          (k >= NumberedDays ==> dates[k].dayNum == None))
    && (forall k :: 0 <= k < |dates| ==>
          && (dates[k].isToday <==> k == 2)
          && (dates[k].isCompleted <==> k == 1)
          && (dates[k].isIncomplete <==> k == 0))
  }

  /** `generateDates`: the two loops that push the numbered days and then the star days. */
  method GenerateDates() returns (dates: seq<DateItem>)
    ensures IsDayStrip(dates)
    ensures forall a, b :: 0 <= a < b < |dates| ==> dates[a].id != dates[b].id
  {
    dates := [];
    for i := 1 to NumberedDays + 1
      invariant |dates| == i - 1
      invariant forall k :: 0 <= k < |dates| ==>
                  && dates[k].id == DecimalString(k + 1) && !dates[k].isStar
                  && dates[k].dayNum == Some(k + 1)
                  && (dates[k].isToday <==> k == 2)
                  && (dates[k].isCompleted <==> k == 1)
                  && (dates[k].isIncomplete <==> k == 0)
    {
      dates := dates + [DateItem(DecimalString(i), Some(i), i == 3, i == 2, i == 1, false)];
    }
    for i := NumberedDays + 1 to StripLength + 1
      invariant |dates| == i - 1
      invariant forall k :: 0 <= k < |dates| ==> dates[k].id == DecimalString(k + 1)
      invariant forall k :: 0 <= k < NumberedDays ==>
                  && !dates[k].isStar && dates[k].dayNum == Some(k + 1)
                  && (dates[k].isToday <==> k == 2)
                  && (dates[k].isCompleted <==> k == 1)
                  && (dates[k].isIncomplete <==> k == 0)
      invariant forall k :: NumberedDays <= k < |dates| ==>
                  dates[k].isStar && dates[k].dayNum == None && !dates[k].isToday && !dates[k].isCompleted && !dates[k].isIncomplete
    {
      dates := dates + [DateItem(DecimalString(i), None, false, false, false, true)];
    }
    forall a, b | 0 <= a < b < |dates| ensures dates[a].id != dates[b].id {
      if dates[a].id == dates[b].id {
        DecimalStringInjective(a + 1, b + 1);
      }
    }
  }

  /** The initial selection names the entry at position 2, which is today. */
  lemma InitialSelectionIsToday(dates: seq<DateItem>)
    requires IsDayStrip(dates)
    ensures dates[2].id == InitialSelection && dates[2].isToday
    ensures forall k :: 0 <= k < |dates| && dates[k].id == InitialSelection ==> k == 2
  {
  }

  /** The star entries are exactly the last five (positions 7..11), none with a status mark. */
  lemma StarEntries(dates: seq<DateItem>)
    requires IsDayStrip(dates)
    ensures (set k | 0 <= k < |dates| && dates[k].isStar) == {7, 8, 9, 10, 11}
    ensures |set k | 0 <= k < |dates| && dates[k].isStar| == 5
    ensures forall k :: 0 <= k < |dates| && dates[k].isStar ==>
              !dates[k].isToday && !dates[k].isCompleted && !dates[k].isIncomplete
  {
  }

  class SurveyState {
    /** The strip, built once when the screen mounts and never replaced. */
    const dates: seq<DateItem>
    /** `selectedDate`: the id of the highlighted entry. */
    var selectedDate: string

    /** The selection always names an entry of the strip. */
    ghost predicate Valid()
      reads this
    {
      IsDayStrip(dates) && exists k :: 0 <= k < |dates| && dates[k].id == selectedDate
    }

    constructor ()
      ensures Valid()
      ensures IsDayStrip(dates)
      ensures selectedDate == InitialSelection
    {
      var strip := GenerateDates();
      dates := strip;
      selectedDate := InitialSelection;
      InitialSelectionIsToday(strip);
    }

    /** Pressing an entry selects its id; the strip stays as it is. */
    method Press(item: DateItem)
      requires Valid()
      requires item in dates
      modifies this`selectedDate
      ensures Valid()
      ensures selectedDate == item.id
    {
      selectedDate := item.id;
    }
  }
}
