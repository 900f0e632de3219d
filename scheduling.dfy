/**
 * The appointment rules: which appointment of a patient counts as the latest,
 * the follow-up the auto-scheduler books two weeks after it, and the record
 * changes made by marking an appointment complete and by a quick reschedule.
 */
module Scheduling {
  import opened Common
  import opened Calendar
  import opened Ordering
  import opened Records

  /** `getAutoScheduleSettings`: fixed defaults; the scheduler itself hard-codes 14 days and the weekend hop. */
  datatype AutoScheduleSettings = AutoScheduleSettings(
    interval: string,
    defaultType: string,
    defaultDuration: string,
    skipWeekends: bool,
    preferredTimes: seq<string>)

  const Settings := AutoScheduleSettings("2 weeks", "Adjustment", "45", true,
                                         ["09:00", "10:00", "11:00", "14:00", "15:00", "16:00"])

  /** The time booked when the patient has no earlier appointment. */
  const DefaultTime := "10:00"

  /** The name written into `completedBy` and `rescheduledBy`. */
  const Practitioner := "Dr. Denisa"

  const DefaultCompletionNote := "Appointment completed successfully"

  /** The note every auto-scheduled appointment carries. */
  function FollowUpNote(): string {
    "Auto-scheduled " + Settings.interval + " follow-up appointment"
  }

  /** The comparator `new Date(b.date) - new Date(a.date)` as a key: latest date first. */
  function LatestFirst(a: Appointment): seq<int> {
    [-a.date]
  }

  /** The patient's appointments in collection order (`filter` on `patientId`). */
  function OwnAppointments(appts: seq<Appointment>, patientId: int): (own: seq<Appointment>)
    ensures forall a :: a in own <==> a in appts && a.patientId == patientId
  {
    Filter(appts, (a: Appointment) => a.patientId == patientId)
  }

  /**
   * The head of the patient's appointments sorted latest first: absent
   * exactly when the patient has none, otherwise one of theirs.
   */
  function LatestAppointment(appts: seq<Appointment>, patientId: int): (r: Option<Appointment>)
    ensures r.None? <==> forall a :: a in appts ==> a.patientId != patientId
    ensures r.Some? ==> r.value in appts && r.value.patientId == patientId
  {
    var own := OwnAppointments(appts, patientId);
    if own == [] then None
    else
      SortByKeyPermutes(own, LatestFirst);
      var sorted := SortByKey(own, LatestFirst);
      assert sorted[0] in multiset(own);
      Some(sorted[0])
  }

  /** No appointment before position `i` falls on the same date. */
  predicate FirstOnItsDate(appts: seq<Appointment>, i: int)
    requires 0 <= i < |appts|
  {
    forall j :: 0 <= j < i ==> appts[j].date != appts[i].date
  }

  /**
   * The appointment picked is the patient's latest, and among several on that
   * date the one that comes first in the collection (the sort is stable).
   */
  lemma LatestAppointmentIsLatest(appts: seq<Appointment>, patientId: int)
    ensures var r := LatestAppointment(appts, patientId);
      r.Some? ==> forall a :: a in appts && a.patientId == patientId ==> a.date <= r.value.date
    ensures var r := LatestAppointment(appts, patientId); var own := OwnAppointments(appts, patientId);
      r.Some? ==> forall i :: 0 <= i < |own| && own[i].date == r.value.date && FirstOnItsDate(own, i) ==> own[i] == r.value
  {
    var own := OwnAppointments(appts, patientId);
    if own != [] {
      var sorted := SortByKey(own, LatestFirst);
      var latest := sorted[0];
      SortByKeySorted(own, LatestFirst);
      SortByKeyPermutes(own, LatestFirst);
      forall a | a in appts && a.patientId == patientId ensures a.date <= latest.date {
        assert a in multiset(sorted);
        var j :| 0 <= j < |sorted| && sorted[j] == a;
        if j > 0 {
          assert !KeyBelow(LatestFirst(sorted[j]), LatestFirst(sorted[0]));
          SingleKeyBelow(-a.date, -latest.date);
        }
      }
      forall i | 0 <= i < |own| && own[i].date == latest.date && FirstOnItsDate(own, i)
        ensures own[i] == latest
      {
        var k := LatestFirst(latest);
        WithKeyFirst(own, i, LatestFirst);
        WithKeyFirst(sorted, 0, LatestFirst);
        SortByKeyStable(own, LatestFirst, k);
      }
    }
  }

  /**
   * The appointment `autoScheduleNextAppointment` books for a known patient:
   * two weeks after the latest appointment (or after `today` when there is
   * none), moved off a weekend, at the latest appointment's time or 10:00.
   */
  function FollowUp(patient: Patient, appts: seq<Appointment>, today: Day, newId: int): (a: Appointment)
    ensures a.id == newId && a.patientId == patient.id && a.patientName == patient.name
    ensures a.status == Scheduled && a.kind == Settings.defaultType && a.duration == Settings.defaultDuration
    ensures a.completion.None? && a.rescheduling.None?
    ensures a.notes == FollowUpNote() && !IsWeekend(a.date)
    ensures var last := LatestAppointment(appts, patient.id);
      a.date == TwoWeeksLater(if last.Some? then last.value.date else today)
    ensures var last := LatestAppointment(appts, patient.id);
      && (last.Some? ==> last.value.date + 14 <= a.date <= last.value.date + 16 && a.time == last.value.time)
      && (last.None? ==> today + 14 <= a.date <= today + 16 && a.time == DefaultTime)
  {
    var last := LatestAppointment(appts, patient.id);
    var base := if last.Some? then last.value.date else today;
    var time := if last.Some? then last.value.time else DefaultTime;
    Appointment(newId, patient.id, patient.name, TwoWeeksLater(base), time, Settings.defaultType,
                Settings.defaultDuration, FollowUpNote(), Scheduled, None, None)
  }

  /**
   * The record `markAppointmentComplete` stores: status Completed plus the
   * completion fields, with an empty note replaced by the default; every
   * other field as before.
   */
  function MarkedComplete(a: Appointment, notes: string, now: int): (c: Appointment)
    ensures c.status == Completed
    ensures c.completion.Some? && c.completion.value.completedAt == now
    ensures c.completion.value.completedBy == Practitioner
    ensures c.completion.value.completionNotes == (if notes == "" then DefaultCompletionNote else notes)
    ensures c.completion.value.completionNotes != ""
    ensures c.(status := a.status, completion := a.completion) == a
  {
    a.(status := Completed,
       completion := Some(CompletionInfo(now, if notes == "" then DefaultCompletionNote else notes, Practitioner)))
  }

  /**
   * The record a quick reschedule stores: moved to the next working day,
   * status Rescheduled, the previous date kept as `originalDate`; every other
   * field as before.
   */
  function QuickRescheduled(a: Appointment, now: int): (r: Appointment)
    ensures r.status == Rescheduled
    ensures a.date < r.date <= a.date + 3 && !IsWeekend(r.date)
    ensures forall d :: a.date < d < r.date ==> IsWeekend(d)
    ensures r.rescheduling == Some(RescheduleInfo(a.date, now, Practitioner))
    ensures r.(date := a.date, status := a.status, rescheduling := a.rescheduling) == a
  {
    a.(date := NextWorkingDay(a.date), status := Rescheduled,
       rescheduling := Some(RescheduleInfo(a.date, now, Practitioner)))
  }

  /** The status changes the two operations allow: out of Scheduled or Rescheduled, never out of Completed. */
  predicate StatusStep(from: AppointmentStatus, to: AppointmentStatus) {
    from != Completed && to != Scheduled
  }

  /** Completing and quick-rescheduling an appointment that is not completed are allowed status steps. */
  lemma TransitionsAllowed(a: Appointment, notes: string, now: int)
    requires a.status != Completed
    ensures StatusStep(a.status, MarkedComplete(a, notes, now).status)
    ensures StatusStep(a.status, QuickRescheduled(a, now).status)
  {
  }
}
