/**
 * MedicationViewModel.kt: the medication form state held by the view
 * model, the list of scheduled reminders, the reminder delay, and the
 * deletion of a reminder by its work id.
 *
 * `LocalTime.now()` and `UUID.randomUUID()` are parameters. The WorkManager
 * calls are kept only as a ghost log of what was enqueued or cancelled.
 */
module Medication {
  import opened JavaTime

  /** One entry of the scheduled-medications list. */
  datatype MedSchedule = MedSchedule(name: string, time: string, workId: string)

  /** The one-time request handed to WorkManager: initial delay, input data, tag. */
  datatype WorkRequest = WorkRequest(initialDelayMillis: int, medicationName: string, tag: string)

  datatype WorkEvent =
    | Enqueued(request: WorkRequest)
    | CancelledById(id: string)

  // ---------------------------------------------------------------------
  // The reminder delay
  // ---------------------------------------------------------------------

  /**
   * The initial delay `scheduleNotification` computes, as written: the
   * milliseconds from `now` to `time` when `time` is later today, and
   * otherwise the milliseconds from `now` to `time.plus(24, HOURS)`.
   */
  function Delay(time: LocalTime, now: LocalTime): (r: int)
    ensures -MILLIS_PER_DAY < r < MILLIS_PER_DAY
    ensures r > 0 ==> IsAfter(time, now)
  {
    NanoOfDayInDay(time);
    NanoOfDayInDay(now);
    IsAfterIffLater(time, now);
    PlusWholeDays(time, 1);
    if IsAfter(time, now) then MillisBetween(now, time)
    else MillisBetween(now, PlusHours(time, HOURS_PER_DAY))
  }

  /**
   * When the target is later today the delay is the gap in milliseconds,
   * truncated: it lies in [0, one day), and it is zero exactly when the gap
   * is under a millisecond.
   */
  lemma DelayWhenAfter(time: LocalTime, now: LocalTime)
    requires IsAfter(time, now)
    ensures var r := Delay(time, now);
      var gap := time.ToNanoOfDay() - now.ToNanoOfDay();
      && 0 < gap < NANOS_PER_DAY
      && 0 <= r < MILLIS_PER_DAY
      && r * NANOS_PER_MILLI <= gap < (r + 1) * NANOS_PER_MILLI
      && (r > 0 <==> gap >= NANOS_PER_MILLI)
  {
    IsAfterIffLater(time, now);
    NanoOfDayInDay(time);
    NanoOfDayInDay(now);
  }

  /**
   * When the target is not later today, adding 24 hours to a time of day
   * gives the same time, so the delay is the (non-positive) gap from `now`
   * back to `time`, truncated toward zero; it is zero when the two are equal.
   */
  lemma DelayWhenNotAfter(time: LocalTime, now: LocalTime)
    requires !IsAfter(time, now)
    ensures var r := Delay(time, now);
      var lag := now.ToNanoOfDay() - time.ToNanoOfDay();
      && 0 <= lag < NANOS_PER_DAY
      && -MILLIS_PER_DAY < r <= 0
      && (-r) * NANOS_PER_MILLI <= lag < (-r + 1) * NANOS_PER_MILLI
      && (r == 0 <==> lag < NANOS_PER_MILLI)
      && (time == now ==> r == 0)
  {
    IsAfterIffLater(time, now);
    NanoOfDayInDay(time);
    NanoOfDayInDay(now);
    PlusWholeDays(time, 1);
  }

  /** At 23:50 a 00:05 reminder gets a delay of minus 23 h 45 min, not plus 15 min. */
  lemma PastTargetDelayExample()
    ensures Delay(TimeFields(0, 5, 0, 0), TimeFields(23, 50, 0, 0)) == -85_500_000
  {
    PlusWholeDays(TimeFields(0, 5, 0, 0), 1);
  }

  /**
   * The nanoseconds from `now` to the next time the clock shows `time`,
   * strictly later than `now` (a whole day when the two are equal).
   */
  function NanosUntilNext(time: LocalTime, now: LocalTime): (gap: int)
    ensures 0 < gap <= NANOS_PER_DAY
  {
    var d := (time.ToNanoOfDay() - now.ToNanoOfDay()) % NANOS_PER_DAY;
    if d == 0 then NANOS_PER_DAY else d
  }

  /** The delay the "+24 hours" branch evidently means: today's gap plus one day. */
  function NextOccurrenceDelay(time: LocalTime, now: LocalTime): (r: int)
    ensures 0 <= r <= MILLIS_PER_DAY
  {
    NanoOfDayInDay(time);
    NanoOfDayInDay(now);
    IsAfterIffLater(time, now);
    if IsAfter(time, now) then MillisBetween(now, time)
    else JavaDiv(time.ToNanoOfDay() + NANOS_PER_DAY - now.ToNanoOfDay(), NANOS_PER_MILLI)
  }

  /**
   * The corrected delay is never negative, at most one day, is the time to
   * the next occurrence in milliseconds, and agrees with the as-written
   * delay whenever the target is later today.
   */
  lemma NextOccurrenceDelayIsWraparoundGap(time: LocalTime, now: LocalTime)
    ensures var r := NextOccurrenceDelay(time, now);
      && 0 <= r <= MILLIS_PER_DAY
      && r * NANOS_PER_MILLI <= NanosUntilNext(time, now) < (r + 1) * NANOS_PER_MILLI
      && (IsAfter(time, now) ==> r == Delay(time, now))
  {
    IsAfterIffLater(time, now);
    NanoOfDayInDay(time);
    NanoOfDayInDay(now);
    var diff := time.ToNanoOfDay() - now.ToNanoOfDay();
    if diff > 0 {
      assert diff % NANOS_PER_DAY == diff;
    } else {
      assert (diff + NANOS_PER_DAY) % NANOS_PER_DAY == diff % NANOS_PER_DAY;
      if diff == 0 {
        assert NanosUntilNext(time, now) == NANOS_PER_DAY;
      } else {
        assert diff % NANOS_PER_DAY == diff + NANOS_PER_DAY;
      }
    }
  }

  /** The corrected delay for the 23:50 / 00:05 case is fifteen minutes. */
  lemma NextOccurrenceDelayExample()
    ensures NextOccurrenceDelay(TimeFields(0, 5, 0, 0), TimeFields(23, 50, 0, 0)) == 900_000
  {
  }

  // ---------------------------------------------------------------------
  // Removing entries by work id
  // ---------------------------------------------------------------------

  /** `filter { it.workId != workId }`. */
  function Without(s: seq<MedSchedule>, workId: string): (r: seq<MedSchedule>)
    ensures |r| <= |s|
    ensures forall m :: m in r <==> m in s && m.workId != workId
  {
    if s == [] then []
    else if s[0].workId == workId then Without(s[1..], workId)
    else [s[0]] + Without(s[1..], workId)
  }

  /** Filtering distributes over concatenation, so the kept entries stay in their order. */
  lemma {:induction false} WithoutAppend(a: seq<MedSchedule>, b: seq<MedSchedule>, workId: string)
    ensures Without(a + b, workId) == Without(a, workId) + Without(b, workId)
  {
    if a == [] {
      assert a + b == b;
    } else {
      assert (a + b)[0] == a[0] && (a + b)[1..] == a[1..] + b;
      WithoutAppend(a[1..], b, workId);
    }
  }

  /** On a single entry, filtering keeps it exactly when its work id differs. */
  lemma WithoutSingleton(e: MedSchedule, workId: string)
    ensures Without([e], workId) == if e.workId == workId then [] else [e]
  {
    assert [e][1..] == [];
  }

  /** Deleting a work id that no entry carries leaves the list as it is. */
  lemma {:induction false} WithoutAbsent(s: seq<MedSchedule>, workId: string)
    requires forall i :: 0 <= i < |s| ==> s[i].workId != workId
    ensures Without(s, workId) == s
  {
    if s != [] {
      WithoutAbsent(s[1..], workId);
      assert [s[0]] + s[1..] == s;
    }
  }

  /** Deleting the same work id twice is the same as deleting it once. */
  lemma {:induction false} WithoutIdempotent(s: seq<MedSchedule>, workId: string)
    ensures Without(Without(s, workId), workId) == Without(s, workId)
  {
    var r := Without(s, workId);
    forall i | 0 <= i < |r| ensures r[i].workId != workId {
      assert r[i] in r;
    }
    WithoutAbsent(r, workId);
  }

  /** No two entries share a work id. */
  ghost predicate DistinctWorkIds(s: seq<MedSchedule>) {
    forall i, j :: 0 <= i < j < |s| ==> s[i].workId != s[j].workId
  }

  /** Appending an entry with a fresh work id keeps the work ids distinct. */
  lemma AppendFreshKeepsDistinct(s: seq<MedSchedule>, e: MedSchedule)
    requires DistinctWorkIds(s)
    requires forall i :: 0 <= i < |s| ==> s[i].workId != e.workId
    ensures DistinctWorkIds(s + [e])
  {
  }

  /** Deleting keeps the work ids distinct. */
  lemma {:induction false} WithoutKeepsDistinct(s: seq<MedSchedule>, workId: string)
    requires DistinctWorkIds(s)
    ensures DistinctWorkIds(Without(s, workId))
  {
    if s != [] {
      var tail := s[1..];
      assert DistinctWorkIds(tail) by {
        forall i, j | 0 <= i < j < |tail| ensures tail[i].workId != tail[j].workId {
          assert tail[i] == s[i + 1] && tail[j] == s[j + 1];
        }
      }
      WithoutKeepsDistinct(tail, workId);
      if s[0].workId != workId {
        var rest := Without(tail, workId);
        forall k | 0 <= k < |rest| ensures rest[k].workId != s[0].workId {
          assert rest[k] in tail;
          var j :| 0 <= j < |tail| && tail[j] == rest[k];
          assert tail[j] == s[j + 1];
        }
        assert Without(s, workId) == [s[0]] + rest;
      }
    }
  }

  /** Deleting the work id of an entry whose neighbours all carry other ids cuts out just that entry. */
  lemma {:induction false} WithoutSplice(before: seq<MedSchedule>, e: MedSchedule, after: seq<MedSchedule>)
    requires forall j :: 0 <= j < |before| ==> before[j].workId != e.workId
    requires forall j :: 0 <= j < |after| ==> after[j].workId != e.workId
    ensures Without(before + [e] + after, e.workId) == before + after
  {
    var id := e.workId;
    assert Without(before, id) == before by { WithoutAbsent(before, id); }
    assert Without(after, id) == after by { WithoutAbsent(after, id); }
    assert Without([e], id) == [] by { WithoutSingleton(e, id); }
    WithoutAppend(before, [e], id);
    WithoutAppend(before + [e], after, id);
  }

  /** When no other entry shares an entry's work id, deleting that id removes exactly that entry. */
  lemma {:induction false} WithoutRemovesExactlyOne(s: seq<MedSchedule>, i: int)
    requires 0 <= i < |s|
    requires forall j :: 0 <= j < |s| && j != i ==> s[j].workId != s[i].workId
    ensures Without(s, s[i].workId) == s[..i] + s[i + 1..]
  {
    var before, after := s[..i], s[i + 1..];
    forall j | 0 <= j < |before| ensures before[j].workId != s[i].workId {
      assert before[j] == s[j];
    }
    forall j | 0 <= j < |after| ensures after[j].workId != s[i].workId {
      assert after[j] == s[i + 1 + j];
    }
    WithoutSplice(before, s[i], after);
    assert s == before + [s[i]] + after;
  }

  /** Scheduling an entry with a fresh work id and then deleting it restores the list. */
  lemma {:induction false} ScheduleThenDelete(s: seq<MedSchedule>, e: MedSchedule)
    requires forall i :: 0 <= i < |s| ==> s[i].workId != e.workId
    ensures Without(s + [e], e.workId) == s
  {
    WithoutAppend(s, [e], e.workId);
    WithoutAbsent(s, e.workId);
  }

  // ---------------------------------------------------------------------
  // The view model
  // ---------------------------------------------------------------------

  class MedicationViewModel {
    var medicationName: string
    var medicationTime: string
    var scheduledMedications: seq<MedSchedule>
    /** What was handed to WorkManager, in order. */
    ghost var work: seq<WorkEvent>

    constructor ()
      ensures medicationName == "" && medicationTime == ""
      ensures scheduledMedications == [] && work == []
    {
      medicationName, medicationTime, scheduledMedications := "", "", [];
      work := [];
    }

    /** Sets the name and nothing else. */
    method UpdateMedicationName(name: string)
      modifies this`medicationName
      ensures medicationName == name
      ensures medicationTime == old(medicationTime)
      ensures scheduledMedications == old(scheduledMedications) && work == old(work)
    {
      medicationName := name;
    }

    /** Sets the time text and nothing else. */
    method UpdateMedicationTime(time: string)
      modifies this`medicationTime
      ensures medicationTime == time
      ensures medicationName == old(medicationName)
      ensures scheduledMedications == old(scheduledMedications) && work == old(work)
    {
      medicationTime := time;
    }

    /**
     * Enqueues a reminder tagged with the fresh `workId` and appends an entry
     * built from the current name and time strings (not from `time`).
     */
    method ScheduleNotification(time: LocalTime, now: LocalTime, workId: string)
      modifies this`scheduledMedications, this`work
      ensures medicationName == old(medicationName) && medicationTime == old(medicationTime)
      ensures scheduledMedications == old(scheduledMedications) + [MedSchedule(medicationName, medicationTime, workId)]
      ensures work == old(work) + [Enqueued(WorkRequest(Delay(time, now), medicationName, workId))]
      ensures DistinctWorkIds(old(scheduledMedications))
              && (forall i :: 0 <= i < |old(scheduledMedications)| ==> old(scheduledMedications)[i].workId != workId)
              ==> DistinctWorkIds(scheduledMedications)
    {
      var delay := Delay(time, now);
      work := work + [Enqueued(WorkRequest(delay, medicationName, workId))];
      var newSchedule := MedSchedule(medicationName, medicationTime, workId);
      scheduledMedications := scheduledMedications + [newSchedule];
    }

    /**
     * Asks WorkManager to cancel the work whose id is the entry's `workId`
     * and drops every entry carrying that `workId`.
     */
    method DeleteMedication(medSchedule: MedSchedule)
      modifies this`scheduledMedications, this`work
      ensures medicationName == old(medicationName) && medicationTime == old(medicationTime)
      ensures work == old(work) + [CancelledById(medSchedule.workId)]
      ensures scheduledMedications == Without(old(scheduledMedications), medSchedule.workId)
      ensures DistinctWorkIds(old(scheduledMedications)) ==> DistinctWorkIds(scheduledMedications)
    {
      work := work + [CancelledById(medSchedule.workId)];
      scheduledMedications := Without(scheduledMedications, medSchedule.workId);
      if DistinctWorkIds(old(scheduledMedications)) {
        WithoutKeepsDistinct(old(scheduledMedications), medSchedule.workId);
      }
    }
  }
}
