/** The three entities the practice keeps in memory: patients, appointments and treatment photos. */
module Records {
  import opened Common
  import opened Calendar
  import Text

  /**
   * A patient record. Optional text fields that the source leaves undefined
   * are the empty string here; `status` is "Active" for every record the
   * application creates.
   */
  datatype Patient = Patient(
    id: int,
    name: string,
    age: int,
    gender: string,
    email: string,
    phone: string,
    treatment: string,
    notes: string,
    status: string,
    nextAppt: string,
    dateAdded: Day,
    lastModified: Option<Day>)

  datatype AppointmentStatus = Scheduled | Completed | Rescheduled

  /** The status text the source stores and searches. */
  function StatusName(s: AppointmentStatus): string {
    match s
    case Scheduled => "Scheduled"
    case Completed => "Completed"
    case Rescheduled => "Rescheduled"
  }

  /** Fields an appointment gains when it is marked complete (timestamps are opaque instants). */
  datatype CompletionInfo = CompletionInfo(completedAt: int, completionNotes: string, completedBy: string)

  /** Fields an appointment gains when it is quick-rescheduled. */
  datatype RescheduleInfo = RescheduleInfo(originalDate: Day, rescheduledAt: int, rescheduledBy: string)

  /**
   * An appointment. `kind` is the source's `type` field; `patientName` is a
   * snapshot of the patient's name when the appointment was made.
   */
  datatype Appointment = Appointment(
    id: int,
    patientId: int,
    patientName: string,
    date: Day,
    time: string,
    kind: string,
    duration: string,
    notes: string,
    status: AppointmentStatus,
    completion: Option<CompletionInfo>,
    rescheduling: Option<RescheduleInfo>)

  /** The four treatment stages a photo can be filed under. */
  datatype Stage = Before | Progress | Adjustment | Completion

  /** The stage key the source stores and searches. */
  function StageName(s: Stage): string {
    match s
    case Before => "before"
    case Progress => "progress"
    case Adjustment => "adjustment"
    case Completion => "completion"
  }

  /**
   * A treatment photo. `treatmentType` stays free text: the sample data uses
   * "braces", "invisalign" and "retainers", but other values can be stored.
   * `patientId` is absent for photos uploaded without a detected patient.
   */
  datatype Photo = Photo(
    id: int,
    patientId: Option<int>,
    patientName: string,
    treatmentType: string,
    stage: Stage,
    date: Day,
    title: string,
    description: string,
    tags: seq<string>,
    notes: string)

  /** `getStageLabel`: the display name of a stage. */
  function StageLabel(s: Stage): (shown: string)
    ensures |shown| > 0
  {
    match s
    case Before => "Before"
    case Progress => "Progress"
    case Adjustment => "Adjustment"
    case Completion => "Complete"
  }

  /** `getTreatmentLabel`: the display name of a treatment key, or the key itself when it is not one of the three. */
  function TreatmentLabel(t: string): (shown: string)
    ensures t !in {"braces", "invisalign", "retainers"} ==> shown == t
  {
    if t == "braces" then "Braces"
    else if t == "invisalign" then "Invisalign"
    else if t == "retainers" then "Retainers"
    else t
  }

  /** A stage label is its stored key capitalised, except that "completion" is shown as "Complete". */
  lemma StageLabelCapitalises(s: Stage)
    ensures s != Completion ==> Text.Capitalises(StageLabel(s), StageName(s))
    ensures s == Completion ==> StageLabel(s) == "Complete"
  {
  }

  /** A treatment label is its key capitalised when the key is one of the three treatments. */
  lemma TreatmentLabelCapitalises(t: string)
    ensures t in {"braces", "invisalign", "retainers"} ==> Text.Capitalises(TreatmentLabel(t), t)
  {
  }

  /** Distinct stages are shown under distinct labels. */
  lemma StageLabelsDistinct(a: Stage, b: Stage)
    ensures StageLabel(a) == StageLabel(b) ==> a == b
  {
  }
}
