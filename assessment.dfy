/**
 * The assessment page's state: the dimension list, the personal information, the current
 * report, the countdown reading and the handle of the interval that refreshes it.
 */
module Assessment {
  import opened Results
  import opened Text
  import opened Dimensions
  import opened Report
  import opened Countdown

  /** `if (timerRef.current)`: a handle counts only when it is present and not 0. */
  predicate Truthy(handle: Option<int>) {
    handle.Some? && handle.value != 0
  }

  /** `!desc.trim()` for some note: the report is still generated, with a warning. */
  predicate HasBlankNote(dims: seq<Dimension>) {
    exists i, n :: 0 <= i < |dims| && 0 <= n < |dims[i].notes| && AllWhitespace(dims[i].notes[n])
  }

  class LifeWheelAssessment {
    var dimensions: seq<Dimension>
    var newDimensionName: string
    var showReport: bool
    var reportGenerated: bool
    var reportData: Option<Report>
    var name: string
    var age: Option<int>
    var expectedLifespan: Option<int>
    var remainingTime: RemainingTime
    /** `timerRef.current`. */
    var timerRef: Option<int>

    // The browser's interval scheduler as far as this page uses it: the intervals still firing
    // and the handle the next `setInterval` returns (browsers hand out positive handles).
    var liveIntervals: set<int>
    var nextHandle: int

    /**
     * At most one interval is live, and it is the one `timerRef` holds; every handle
     * handed out is positive, so `timerRef` is truthy whenever it holds one.
     */
    predicate TimerDiscipline()
      reads this
      ensures TimerDiscipline() ==> |liveIntervals| <= 1
    {
      && nextHandle >= 1
      && (timerRef.Some? ==> 1 <= timerRef.value < nextHandle)
      && (liveIntervals == {} || (timerRef.Some? && liveIntervals == {timerRef.value}))
    }

    /**
     * The object invariant. Each handler keeps the half it can touch: the dimension handlers
     * keep the store well formed and leave the timer fields alone, the timer handlers the reverse.
     */
    ghost predicate Valid()
      reads this
    {
      WellFormed(dimensions) && TimerDiscipline()
    }

    /** The initial state: the default dimensions, no report, expected lifespan 80, no timer. */
    constructor ()
      ensures Valid()
      ensures dimensions == Defaults() && newDimensionName == ""
      ensures !showReport && !reportGenerated && reportData == None
      ensures name == "" && age == None && expectedLifespan == Some(80)
      ensures remainingTime == RemainingTime(0, 0, 0, 0)
      ensures timerRef == None && liveIntervals == {}
    {
      dimensions := Defaults();
      newDimensionName := "";
      showReport, reportGenerated, reportData := false, false, None;
      name, age, expectedLifespan := "", None, Some(80);
      remainingTime := RemainingTime(0, 0, 0, 0);
      timerRef := None;
      liveIntervals, nextHandle := {}, 1;
      DefaultsWellFormed();
    }

    /** The three personal-information inputs. */
    method EditPersonalInfo(newName: string, newAge: Option<int>, newLifespan: Option<int>)
      modifies this`name, this`age, this`expectedLifespan
      ensures name == newName && age == newAge && expectedLifespan == newLifespan
    {
      name, age, expectedLifespan := newName, newAge, newLifespan;
    }

    /** The input holding the name of a dimension to add. */
    method EditNewDimensionName(text: string)
      modifies this`newDimensionName
      ensures newDimensionName == text
    {
      newDimensionName := text;
    }

    /** `handleRatingChange`; the slider only produces ratings from 1 to 10. */
    method HandleRatingChange(id: string, value: int)
      requires WellFormed(dimensions)
      requires MinRating <= value <= MaxRating
      modifies this`dimensions
      ensures WellFormed(dimensions)
      ensures dimensions == SetRating(old(dimensions), id, value)
    {
      SetRatingKeepsWellFormed(dimensions, id, value);
      dimensions := SetRating(dimensions, id, value);
    }

    /** `handleDescriptionChange`; the inputs exist for note indices 0 to 2 only. */
    method HandleDescriptionChange(id: string, index: nat, text: string)
      requires WellFormed(dimensions)
      requires index < NoteCount
      modifies this`dimensions
      ensures WellFormed(dimensions)
      ensures dimensions == SetNote(old(dimensions), id, index, text)
    {
      SetNoteKeepsWellFormed(dimensions, id, index, text);
      dimensions := SetNote(dimensions, id, index, text);
    }

    /**
     * `addDimension`: `freshId` stands for the random id the page draws; it is assumed not to
     * collide with an id in use. On success the input is cleared.
     */
    method AddDimension(freshId: string) returns (outcome: Outcome<StoreError>)
      requires WellFormed(dimensions)
      requires !HasId(dimensions, freshId)
      modifies this`dimensions, this`newDimensionName
      ensures WellFormed(dimensions)
      ensures var r := Add(old(dimensions), old(newDimensionName), freshId);
        && (r.Ok? ==> outcome == Pass && dimensions == r.value && newDimensionName == "")
        && (r.Err? ==> outcome == Fail(r.error) && dimensions == old(dimensions)
                       && newDimensionName == old(newDimensionName))
    {
      AddKeepsWellFormed(dimensions, newDimensionName, freshId);
      var r := Add(dimensions, newDimensionName, freshId);
      if r.Ok? {
        dimensions := r.value;
        newDimensionName := "";
        outcome := Pass;
      } else {
        outcome := Fail(r.error);
      }
    }

    /** `removeDimension`: unknown ids are ignored and the last dimension is never removed. */
    method RemoveDimension(id: string) returns (outcome: Outcome<StoreError>)
      requires WellFormed(dimensions)
      modifies this`dimensions
      ensures WellFormed(dimensions)
      ensures |dimensions| >= 1
      ensures var r := Remove(old(dimensions), id);
        && (r.Ok? ==> outcome == Pass && dimensions == r.value)
        && (r.Err? ==> outcome == Fail(r.error) && dimensions == old(dimensions))
    {
      RemoveKeepsWellFormed(dimensions, id);
      var r := Remove(dimensions, id);
      if r.Ok? {
        dimensions := r.value;
        outcome := Pass;
      } else {
        outcome := Fail(r.error);
      }
    }

    /** `window.setInterval`: a new live interval under a handle never given out before. */
    method SetInterval() returns (handle: int)
      modifies this`liveIntervals, this`nextHandle
      ensures handle == old(nextHandle) && nextHandle == old(nextHandle) + 1
      ensures liveIntervals == old(liveIntervals) + {handle}
    {
      handle := nextHandle;
      nextHandle := nextHandle + 1;
      liveIntervals := liveIntervals + {handle};
    }

    /** `window.clearInterval`: the interval stops firing. */
    method ClearInterval(handle: int)
      modifies this`liveIntervals
      ensures liveIntervals == old(liveIntervals) - {handle}
    {
      liveIntervals := liveIntervals - {handle};
    }

    /**
     * `updateCountdown`, given the difference it computes for this tick (`Countdown.DiffRecomputed`
     * as written; the wall clock is not modelled). It does nothing while age or lifespan is missing
     * or out of order.
     */
    method UpdateCountdown(diffMs: int)
      modifies this`remainingTime
      ensures remainingTime ==
        if age.None? || expectedLifespan.None? || age.value >= expectedLifespan.value
        then old(remainingTime) else Decompose(diffMs)
    {
      if age.None? || expectedLifespan.None? || age.value >= expectedLifespan.value {
        return;
      }
      remainingTime := Decompose(diffMs);
    }

    /** One firing of a live interval: only an interval that has not been cleared can fire. */
    method Tick(handle: int, diffMs: int)
      requires handle in liveIntervals
      modifies this`remainingTime
      ensures remainingTime ==
        if age.None? || expectedLifespan.None? || age.value >= expectedLifespan.value
        then old(remainingTime) else Decompose(diffMs)
    {
      UpdateCountdown(diffMs);
    }

    /**
     * `generateReport`. Invalid personal information is refused before anything changes.
     * Otherwise any running interval is cleared before a new one starts, the countdown is
     * refreshed, and the report is built from the current dimensions. `blankNotes` is the
     * non-blocking warning about unfilled notes.
     */
    method GenerateReport(diffMs: int) returns (outcome: Outcome<ValidationError>, blankNotes: bool)
      requires TimerDiscipline()
      modifies this`timerRef, this`liveIntervals, this`nextHandle, this`remainingTime
      modifies this`reportData, this`reportGenerated, this`showReport
      ensures TimerDiscipline()
      ensures var v := Validate(name, age, expectedLifespan);
        && (v.Err? ==> && outcome == Fail(v.error) && !blankNotes
                       && unchanged(this`timerRef, this`liveIntervals, this`nextHandle, this`remainingTime)
                       && unchanged(this`reportData, this`reportGenerated, this`showReport))
        && (v.Ok? ==>
              && outcome == Pass
              && blankNotes == HasBlankNote(dimensions)
              && timerRef == Some(old(nextHandle)) && liveIntervals == {old(nextHandle)}
              && remainingTime == Decompose(diffMs)
              && reportData == Some(BuildReport(dimensions, v.value))
              && reportGenerated && showReport)
    {
      var v := Validate(name, age, expectedLifespan);
      if v.Err? {
        return Fail(v.error), false;
      }
      blankNotes := HasBlankNote(dimensions);
      RestartTimer(diffMs);
      PublishReport(v.value);
      outcome := Pass;
    }

    /** `setReportData`, `setReportGenerated(true)` and `setShowReport(true)`. */
    method PublishReport(info: PersonalInfo)
      modifies this`reportData, this`reportGenerated, this`showReport
      ensures reportData == Some(BuildReport(dimensions, info))
      ensures reportGenerated && showReport
    {
      reportData := Some(BuildReport(dimensions, info));
      reportGenerated, showReport := true, true;
    }

    /**
     * The countdown part of `generateReport`: clear the running interval if there is one,
     * refresh the reading, then start a new interval and keep its handle.
     */
    method RestartTimer(diffMs: int)
      requires TimerDiscipline()
      requires age.Some? && expectedLifespan.Some? && age.value < expectedLifespan.value
      modifies this`timerRef, this`liveIntervals, this`nextHandle, this`remainingTime
      ensures TimerDiscipline()
      ensures timerRef == Some(old(nextHandle)) && liveIntervals == {old(nextHandle)}
      ensures remainingTime == Decompose(diffMs)
    {
      if Truthy(timerRef) {
        ClearInterval(timerRef.value);
      }
      UpdateCountdown(diffMs);
      var handle := SetInterval();
      timerRef := Some(handle);
    }

    /** `handleSubmit`: shows the report section. */
    method HandleSubmit()
      modifies this`showReport
      ensures showReport
    {
      showReport := true;
    }

    /**
     * `resetAssessment`: back to the default dimensions and empty personal information; the
     * interval is cleared and the handle dropped. The new-name input and the last countdown
     * reading are left as they were.
     */
    method ResetAssessment()
      requires TimerDiscipline()
      modifies this`dimensions, this`showReport, this`reportGenerated, this`reportData
      modifies this`name, this`age, this`expectedLifespan, this`timerRef, this`liveIntervals
      ensures Valid()
      ensures dimensions == Defaults()
      ensures !showReport && !reportGenerated && reportData == None
      ensures name == "" && age == None && expectedLifespan == Some(80)
      ensures timerRef == None && liveIntervals == {}
      ensures newDimensionName == old(newDimensionName) && remainingTime == old(remainingTime)
      ensures nextHandle == old(nextHandle)
    {
      showReport, reportGenerated, reportData := false, false, None;
      name, age, expectedLifespan := "", None, Some(80);
      StopTimer();
      RestoreDefaults();
    }

    /** The timer part of `resetAssessment`: clear the running interval, if any, and drop its handle. */
    method StopTimer()
      requires TimerDiscipline()
      modifies this`timerRef, this`liveIntervals
      ensures timerRef == None && liveIntervals == {}
    {
      if Truthy(timerRef) {
        ClearInterval(timerRef.value);
        timerRef := None;
      }
    }

    /** `setDimensions([...DEFAULT_DIMENSIONS])`. */
    method RestoreDefaults()
      modifies this`dimensions
      ensures dimensions == Defaults() && WellFormed(dimensions)
    {
      dimensions := Defaults();
      DefaultsWellFormed();
    }

    /** The unmount cleanup: the interval is cleared; the reference itself is left as it is. */
    method Unmount()
      requires TimerDiscipline()
      modifies this`liveIntervals
      ensures TimerDiscipline()
      ensures liveIntervals == {}
    {
      if Truthy(timerRef) {
        ClearInterval(timerRef.value);
      }
    }
  }
}
