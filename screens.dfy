/**
 * MainActivity.kt: the form state each screen remembers, the `onClick`
 * handlers of the Schedule, Save Note and Save Patient Info buttons, and
 * the `enabled` predicates of those buttons. Layout, navigation and the
 * permission request are not part of this model.
 */
module Screens {
  import opened Wrappers
  import opened Chars
  import opened JavaTime
  import Medication
  import Notes
  import PatientInfo
  import Dao

  const PLEASE_ENTER_TIME := "Please enter a time"
  const INVALID_TIME := "Invalid time format. Use HH:mm (e.g., 14:30)"
  const PLEASE_ENTER_DATE_AND_TIME := "Please enter both date and time"
  const INVALID_NOTE_FORMAT := "Invalid format. Use yyyy-MM-dd for date and HH:mm for time"

  // ---------------------------------------------------------------------
  // Medication screen
  // ---------------------------------------------------------------------

  /**
   * `enabled = medicationTime.isNotEmpty()`: every non-blank text enables
   * the button, and so does a blank one such as a single space.
   */
  predicate ScheduleEnabled(medicationTime: string)
    ensures !IsBlank(medicationTime) ==> ScheduleEnabled(medicationTime)
    ensures ScheduleEnabled(medicationTime) ==> |medicationTime| > 0
  {
    !IsEmpty(medicationTime)
  }

  /**
   * The Schedule handler's decision on the time text: the message it shows,
   * or the time `LocalTime.parse(_, "HH:mm")` yields.
   */
  function CheckMedicationTime(medicationTime: string): (r: Result<LocalTime, string>)
    ensures r == Failure(PLEASE_ENTER_TIME) <==> IsEmpty(medicationTime)
    ensures r == Failure(INVALID_TIME) <==> !IsEmpty(medicationTime) && ParseHHmm(medicationTime).None?
    ensures r.Success? <==> ParseHHmm(medicationTime).Some?
    ensures r.Success? ==> r.value == ParseHHmm(medicationTime).value
  {
    if IsEmpty(medicationTime) then Failure(PLEASE_ENTER_TIME)
    else match ParseHHmm(medicationTime)
      case None => Failure(INVALID_TIME)
      case Some(t) => Success(t)
  }

  /**
   * The button is enabled exactly when its handler would not answer
   * "Please enter a time": that message cannot be reached from the screen.
   */
  lemma ScheduleEnabledIffTimeEntered(medicationTime: string)
    ensures ScheduleEnabled(medicationTime) <==> CheckMedicationTime(medicationTime) != Failure(PLEASE_ENTER_TIME)
  {
  }

  /** An accepted time text is five characters "dd:dd", so the button was enabled. */
  lemma AcceptedTimeWasEnabled(medicationTime: string)
    requires CheckMedicationTime(medicationTime).Success?
    ensures ScheduleEnabled(medicationTime) && HasHHmmShape(medicationTime)
    ensures !IsBlank(medicationTime)
  {
    DigitMakesNotBlank(medicationTime, 0);
  }

  /** The remembered state of MedicationScreen. */
  class MedicationScreen {
    var medicationName: string
    var medicationTime: string
    var errorMessage: string
    const viewModel: Medication.MedicationViewModel

    constructor (viewModel: Medication.MedicationViewModel)
      ensures medicationName == "" && medicationTime == "" && errorMessage == ""
      ensures this.viewModel == viewModel
    {
      medicationName, medicationTime, errorMessage := "", "", "";
      this.viewModel := viewModel;
    }

    /** The time field's `onValueChange`: takes the text and clears the error. */
    method OnTimeChange(text: string)
      modifies this`medicationTime, this`errorMessage
      ensures medicationTime == text && errorMessage == ""
      ensures medicationName == old(medicationName)
    {
      medicationTime := text;
      errorMessage := "";
    }

    /**
     * The Schedule button's `onClick`. `now` is the clock reading and
     * `workId` the UUID the view model draws. On a rejected time only the
     * message changes. On an accepted one the view model gets the name and
     * the time text (the name is not checked, so an empty one goes through),
     * one reminder is scheduled, and the form is cleared.
     */
    method OnScheduleClick(now: LocalTime, workId: string)
      modifies this`medicationName, this`medicationTime, this`errorMessage
      modifies viewModel`medicationName, viewModel`medicationTime
      modifies viewModel`scheduledMedications, viewModel`work
      ensures var check := CheckMedicationTime(old(medicationTime));
        && (check.Failure? ==>
              && errorMessage == check.error
              && medicationName == old(medicationName) && medicationTime == old(medicationTime)
              && viewModel.medicationName == old(viewModel.medicationName)
              && viewModel.medicationTime == old(viewModel.medicationTime)
              && viewModel.scheduledMedications == old(viewModel.scheduledMedications)
              && viewModel.work == old(viewModel.work))
        && (check.Success? ==>
              && medicationName == "" && medicationTime == "" && errorMessage == ""
              && viewModel.medicationName == old(medicationName)
              && viewModel.medicationTime == old(medicationTime)
              && viewModel.scheduledMedications ==
                   old(viewModel.scheduledMedications) + [Medication.MedSchedule(old(medicationName), old(medicationTime), workId)]
              && viewModel.work ==
                   old(viewModel.work) + [Medication.Enqueued(Medication.WorkRequest(
                     Medication.Delay(check.value, now), old(medicationName), workId))])
    {
      if IsEmpty(medicationTime) {
        errorMessage := PLEASE_ENTER_TIME;
      } else {
        var parsed := ParseHHmm(medicationTime);
        if parsed.None? {
          errorMessage := INVALID_TIME;
        } else {
          viewModel.UpdateMedicationName(medicationName);
          viewModel.UpdateMedicationTime(medicationTime);
          viewModel.ScheduleNotification(parsed.value, now, workId);
          medicationName := "";
          medicationTime := "";
          errorMessage := "";
        }
      }
    }
  }

  // ---------------------------------------------------------------------
  // Notes screen
  // ---------------------------------------------------------------------

  /**
   * `"\\d{4}-\\d{2}-\\d{2}"` matched against the whole string; `\d` is an
   * ASCII digit, so a matching date is never blank.
   */
  predicate MatchesDatePattern(s: string)
    ensures MatchesDatePattern(s) ==> !IsBlank(s)
  {
    if |s| == 10 && s[4] == '-' && s[7] == '-' && (forall i :: 0 <= i < 10 && i != 4 && i != 7 ==> IsDigit(s[i])) then
      DigitMakesNotBlank(s, 0);
      true
    else false
  }

  predicate AllDigits(s: string) {
    forall i :: 0 <= i < |s| ==> IsDigit(s[i])
  }

  /** Year, month and day groups of the lengths the pattern asks for, all digits. */
  predicate DigitGroups(year: string, month: string, day: string) {
    |year| == 4 && |month| == 2 && |day| == 2 && AllDigits(year) && AllDigits(month) && AllDigits(day)
  }

  function JoinDate(year: string, month: string, day: string): string {
    year + "-" + month + "-" + day
  }

  /** Every string the pattern matches is digit groups joined by '-'. */
  lemma MatchedDateSplits(s: string)
    requires MatchesDatePattern(s)
    ensures DigitGroups(s[..4], s[5..7], s[8..])
    ensures s == JoinDate(s[..4], s[5..7], s[8..])
  {
    assert s == s[..4] + [s[4]] + s[5..7] + [s[7]] + s[8..];
  }

  /** Every join of digit groups by '-' matches the pattern. */
  lemma JoinedDateMatches(year: string, month: string, day: string)
    requires DigitGroups(year, month, day)
    ensures MatchesDatePattern(JoinDate(year, month, day))
  {
    var s := JoinDate(year, month, day);
    forall i | 0 <= i < 10 && i != 4 && i != 7 ensures IsDigit(s[i]) {
      if i < 4 { assert s[i] == year[i]; }
      else if i < 7 { assert s[i] == month[i - 5]; }
      else { assert s[i] == day[i - 8]; }
    }
  }

  /** The check is only on the shape: a month 13 and a day 45 pass, letters do not. */
  lemma DatePatternExamples()
    ensures MatchesDatePattern("2025-13-45")
    ensures MatchesDatePattern("2025-01-01")
    ensures !MatchesDatePattern("2025-1-01")
    ensures !MatchesDatePattern("25-01-2025")
    ensures !MatchesDatePattern("2025-01-01 ")
  {
    assert "25-01-2025"[4] == '1';
  }

  /** `enabled = noteText.isNotBlank() && date.isNotBlank() && time.isNotBlank()`: no field is empty then. */
  predicate SaveNoteEnabled(noteText: string, date: string, time: string)
    ensures SaveNoteEnabled(noteText, date, time) ==> !IsEmpty(noteText) && !IsEmpty(date) && !IsEmpty(time)
  {
    !IsBlank(noteText) && !IsBlank(date) && !IsBlank(time)
  }

  /**
   * The Save Note handler's decision on the date and time: `None` when it
   * goes on to save, otherwise the message it shows. Emptiness is checked
   * first, then the date pattern, then the time; the last two share a message.
   */
  function CheckNoteForm(date: string, time: string): (r: Option<string>)
    ensures r == Some(PLEASE_ENTER_DATE_AND_TIME) <==> IsEmpty(date) || IsEmpty(time)
    ensures r == Some(INVALID_NOTE_FORMAT) <==>
      !IsEmpty(date) && !IsEmpty(time) && !(MatchesDatePattern(date) && ParseHHmm(time).Some?)
    ensures r == None <==> MatchesDatePattern(date) && ParseHHmm(time).Some?
  {
    if IsEmpty(date) || IsEmpty(time) then Some(PLEASE_ENTER_DATE_AND_TIME)
    else if !MatchesDatePattern(date) then Some(INVALID_NOTE_FORMAT)
    else if ParseHHmm(time).None? then Some(INVALID_NOTE_FORMAT)
    else None
  }

  /** With the button enabled, the "Please enter both date and time" message cannot appear. */
  lemma EnabledNoteFormHasDateAndTime(noteText: string, date: string, time: string)
    requires SaveNoteEnabled(noteText, date, time)
    ensures CheckNoteForm(date, time) != Some(PLEASE_ENTER_DATE_AND_TIME)
  {
  }

  /**
   * A date and time the handler accepts also pass the view model's
   * non-blank guard, so with a non-blank text the note is inserted; and a
   * form the handler accepts with a non-blank text had its button enabled.
   */
  lemma AcceptedNoteFieldsNotBlank(noteText: string, date: string, time: string)
    requires CheckNoteForm(date, time) == None
    ensures !IsBlank(date) && !IsBlank(time)
    ensures !IsBlank(noteText) ==> SaveNoteEnabled(noteText, date, time)
  {
    DigitMakesNotBlank(date, 0);
    DigitMakesNotBlank(time, 0);
  }

  /** The remembered state of NotesScreen. */
  class NotesScreen {
    var noteText: string
    var date: string
    var time: string
    var errorMessage: string
    const viewModel: Notes.NotesViewModel

    constructor (viewModel: Notes.NotesViewModel)
      ensures noteText == "" && date == "" && time == "" && errorMessage == ""
      ensures this.viewModel == viewModel
    {
      noteText, date, time, errorMessage := "", "", "", "";
      this.viewModel := viewModel;
    }

    /**
     * The Save Note button's `onClick`. A rejected form only sets the
     * message. An accepted one hands the three strings to `addNote` once
     * (which inserts them when the text is not blank) and clears the form.
     */
    method OnSaveClick()
      requires viewModel.Valid()
      modifies this`noteText, this`date, this`time, this`errorMessage, viewModel`requests
      ensures viewModel.Valid()
      ensures viewModel.noteEntities == old(viewModel.noteEntities)
      ensures var check := CheckNoteForm(old(date), old(time));
        && (check.Some? ==>
              && errorMessage == check.value
              && noteText == old(noteText) && date == old(date) && time == old(time)
              && viewModel.requests == old(viewModel.requests))
        && (check.None? ==>
              && noteText == "" && date == "" && time == "" && errorMessage == ""
              && (!IsBlank(old(noteText)) ==>
                    viewModel.requests == old(viewModel.requests) + [Dao.Insert(Notes.NoteEntity(0, old(noteText), old(date), old(time)))])
              && (IsBlank(old(noteText)) ==> viewModel.requests == old(viewModel.requests)))
    {
      if IsEmpty(date) || IsEmpty(time) {
        errorMessage := PLEASE_ENTER_DATE_AND_TIME;
      } else if !MatchesDatePattern(date) || ParseHHmm(time).None? {
        errorMessage := INVALID_NOTE_FORMAT;
      } else {
        AcceptedNoteFieldsNotBlank(noteText, date, time);
        viewModel.AddNote(noteText, date, time);
        noteText := "";
        date := "";
        time := "";
        errorMessage := "";
      }
    }
  }

  // ---------------------------------------------------------------------
  // Patient info screen
  // ---------------------------------------------------------------------

  /** `enabled = weight.isNotBlank() && height.isNotBlank()`: neither field is empty then. */
  predicate SavePatientInfoEnabled(weight: string, height: string)
    ensures SavePatientInfoEnabled(weight, height) ==> !IsEmpty(weight) && !IsEmpty(height)
  {
    !IsBlank(weight) && !IsBlank(height)
  }

  /** The remembered state of PatientInfoScreen. */
  class PatientInfoScreen {
    var weight: string
    var height: string
    const viewModel: PatientInfo.PatientInfoViewModel

    constructor (viewModel: PatientInfo.PatientInfoViewModel)
      ensures weight == "" && height == ""
      ensures this.viewModel == viewModel
    {
      weight, height := "", "";
      this.viewModel := viewModel;
    }

    /**
     * The Save Patient Info button's `onClick`: no check of its own; hands
     * both strings to `addPatientInfo`, which inserts them exactly when the
     * button is enabled, then clears both fields.
     */
    method OnSaveClick()
      requires viewModel.Valid()
      modifies this`weight, this`height, viewModel`requests
      ensures viewModel.Valid()
      ensures weight == "" && height == ""
      ensures viewModel.patientInfoList == old(viewModel.patientInfoList)
      ensures SavePatientInfoEnabled(old(weight), old(height)) ==>
        viewModel.requests == old(viewModel.requests) + [Dao.Insert(PatientInfo.PatientInfoEntity(0, old(weight), old(height)))]
      ensures !SavePatientInfoEnabled(old(weight), old(height)) ==> viewModel.requests == old(viewModel.requests)
    {
      viewModel.AddPatientInfo(weight, height);
      weight := "";
      height := "";
    }
  }
}
