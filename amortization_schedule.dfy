/**
 * The schedule table: it shows the whole schedule when `showAll` is set and its first twelve months
 * otherwise, and a button flips between the two.
 */
module AmortizationSchedule {
  import opened LoanModels

  /** How many months the collapsed table shows. */
  const CollapsedRows: nat := 12

  /** The rows on display: all of them, or `slice(0, 12)`. */
  function View(schedule: seq<ScheduleRow>, showAll: bool): seq<ScheduleRow> {
    if showAll then schedule
    else if |schedule| <= CollapsedRows then schedule
    else schedule[..CollapsedRows]
  }

  /**
   * The displayed rows are always a prefix of the schedule: the whole of it with `showAll`, and otherwise
   * its first min(12, |schedule|) rows.
   */
  lemma ViewIsPrefix(schedule: seq<ScheduleRow>, showAll: bool)
    ensures var shown := View(schedule, showAll);
      && |shown| <= |schedule| && shown == schedule[..|shown|]
      && |shown| == (if showAll || |schedule| <= CollapsedRows then |schedule| else CollapsedRows)
  {
  }

  /** The collapsed view is the full view cut to twelve rows, and it loses nothing from a short schedule. */
  lemma CollapsedViewOfShortSchedule(schedule: seq<ScheduleRow>)
    ensures |schedule| <= CollapsedRows ==> View(schedule, false) == View(schedule, true)
    ensures |schedule| > CollapsedRows ==> View(schedule, false) == View(schedule, true)[..CollapsedRows]
  {
  }

  class AmortizationScheduleTable {
    var schedule: seq<ScheduleRow>
    var showAll: bool
    var displayedSchedule: seq<ScheduleRow>

    /** The table is up to date: it displays the view of its schedule. */
    predicate Valid()
      reads this
    {
      displayedSchedule == View(schedule, showAll)
    }

    constructor()
      ensures schedule == [] && !showAll && displayedSchedule == []
      ensures Valid()
    {
      schedule, showAll, displayedSchedule := [], false, [];
    }

    /** `ngOnChanges`: recompute the displayed rows from the inputs. */
    method NgOnChanges()
      modifies this
      ensures Valid()
      ensures schedule == old(schedule) && showAll == old(showAll)
    {
      if showAll {
        displayedSchedule := schedule;
      } else {
        displayedSchedule := if |schedule| <= CollapsedRows then schedule else schedule[..CollapsedRows];
      }
    }

    /**
     * `toggleShowAll`: flip `showAll` and recompute.  The displayed rows depend on the schedule and the flag
     * alone, so two toggles restore both.
     */
    method ToggleShowAll()
      modifies this
      ensures showAll == !old(showAll) && schedule == old(schedule)
      ensures Valid()
      ensures old(Valid()) ==> View(schedule, !showAll) == old(displayedSchedule)
    {
      showAll := !showAll;
      NgOnChanges();
    }
  }
}
