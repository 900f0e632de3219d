/**
 * The application object: the in-memory collections of the practice and the
 * operations that change them — search, patient and appointment forms,
 * auto-scheduling, completion and rescheduling of appointments, the photo
 * gallery and the smart upload.
 */
module Practice {
  import opened Common
  import opened Text
  import opened Calendar
  import opened Records
  import opened Search
  import opened Scheduling
  import opened Gallery
  import opened SmartUpload

  /** The patient form as submitted; `age` is absent when the field is empty. */
  datatype PatientForm = PatientForm(
    name: string,
    age: Option<int>,
    gender: string,
    email: string,
    phone: string,
    treatment: string,
    notes: string)

  /** The appointment form as submitted. */
  datatype AppointmentForm = AppointmentForm(
    patientId: int,
    date: Day,
    time: string,
    kind: string,
    duration: string,
    notes: string)

  /** Why an operation changed nothing; each is an alert in the source. */
  datatype Refusal =
    | PatientNotFound
    | NameRequired
    | InvalidAge
    | AppointmentNotFound
    | AlreadyCompleted
    | CannotRescheduleCompleted
    | NothingApproved

  /** What marking an appointment complete did. */
  datatype CompletionOutcome =
    | CompletionRefused(reason: Refusal)
    | PromptCancelled
    | MarkedCompleted(followUpOffered: bool)

  /** What a reschedule request did. */
  datatype RescheduleOutcome =
    | RescheduleRefused(reason: Refusal)
    | EditorOpened
    | MovedToNextWorkingDay

  /** Ages the forms accept. */
  predicate ValidAge(age: Option<int>) {
    age.Some? && 1 <= age.value <= 100
  }

  /** The form checks of `addNewPatient` and `updatePatient`, in their order: name first, then age. */
  function CheckPatientForm(form: PatientForm): (r: Option<Refusal>)
    ensures r == Some(NameRequired) <==> Trim(form.name) == []
    ensures r == Some(InvalidAge) <==> Trim(form.name) != [] && !ValidAge(form.age)
    ensures r.None? <==> Trim(form.name) != [] && ValidAge(form.age)
  {
    if Trim(form.name) == [] then Some(NameRequired)
    else if !ValidAge(form.age) then Some(InvalidAge)
    else None
  }

  /** The record `addNewPatient` appends: trimmed text fields, status Active, no next appointment yet. */
  function NewPatient(form: PatientForm, id: int, today: Day): (p: Patient)
    requires CheckPatientForm(form).None?
    ensures p.id == id && p.dateAdded == today && p.lastModified.None?
    ensures p.status == "Active" && p.nextAppt == "Not scheduled"
    ensures p.name == Trim(form.name) && p.email == Trim(form.email) && p.phone == Trim(form.phone)
    ensures p.notes == Trim(form.notes) && p.gender == form.gender && p.treatment == form.treatment
    ensures p.age == form.age.value
    ensures p.name != [] && 1 <= p.age <= 100
  {
    TrimEnds(form.name);
    Patient(id, Trim(form.name), form.age.value, form.gender, Trim(form.email), Trim(form.phone),
            form.treatment, Trim(form.notes), "Active", "Not scheduled", today, None)
  }

  /** The record `updatePatient` stores: the form's fields over the old record, which keeps its identity. */
  function UpdatedPatient(old_: Patient, form: PatientForm, today: Day): (p: Patient)
    requires CheckPatientForm(form).None?
    ensures p.id == old_.id && p.dateAdded == old_.dateAdded
    ensures p.status == old_.status && p.nextAppt == old_.nextAppt
    ensures p.lastModified == Some(today)
    ensures p.name == Trim(form.name) && p.email == Trim(form.email) && p.phone == Trim(form.phone)
    ensures p.notes == Trim(form.notes) && p.gender == form.gender && p.treatment == form.treatment
    ensures p.age == form.age.value
    ensures p.name != [] && 1 <= p.age <= 100
  {
    TrimEnds(form.name);
    old_.(name := Trim(form.name), age := form.age.value, gender := form.gender, email := Trim(form.email),
          phone := Trim(form.phone), treatment := form.treatment, notes := Trim(form.notes),
          lastModified := Some(today))
  }

  function PatientWithId(id: int): Patient -> bool {
    (p: Patient) => p.id == id
  }

  function AppointmentWithId(id: int): Appointment -> bool {
    (a: Appointment) => a.id == id
  }

  /** `patients.find(p => p.id === id)`. */
  function FindPatient(patients: seq<Patient>, id: int): (r: Option<Patient>)
    ensures r.None? <==> forall p :: p in patients ==> p.id != id
    ensures r.Some? ==> r.value in patients && r.value.id == id
    ensures r.Some? ==>
      exists i :: (0 <= i < |patients| && patients[i] == r.value && forall j :: 0 <= j < i ==> patients[j].id != id)
  {
    match FindIndex(patients, PatientWithId(id))
    case None => None
    case Some(i) => Some(patients[i])
  }

  /** A record appended under an id no patient has yet is the one later lookups by that id find. */
  lemma AppendedPatientFound(patients: seq<Patient>, p: Patient)
    requires forall q :: q in patients ==> q.id != p.id
    ensures FindPatient(patients + [p], p.id) == Some(p)
  {
    var all := patients + [p];
    assert all[|patients|] == p;
    assert forall j :: 0 <= j < |patients| ==> all[j] in patients;
  }

  /**
   * Replacing the record a lookup by id finds with a record of the same id:
   * the same lookup now finds the new record.
   */
  lemma ReplacedPatientFound(patients: seq<Patient>, i: nat, p: Patient)
    requires FindIndex(patients, PatientWithId(p.id)) == Some(i)
    ensures FindPatient(patients[i := p], p.id) == Some(p)
  {
    var all := patients[i := p];
    var hit := PatientWithId(p.id);
    assert forall j :: 0 <= j < i ==> all[j] == patients[j] && !hit(all[j]);
    assert hit(all[i]);
    var r := FindIndex(all, hit);
    assert r.Some? && r.value == i;
  }

  /** The record `addNewAppointment` appends; the patient's name is 'Unknown' when the id matches nobody. */
  function NewAppointment(form: AppointmentForm, id: int, patients: seq<Patient>): (a: Appointment)
    ensures a.id == id && a.patientId == form.patientId && a.status == Scheduled
    ensures a.date == form.date && a.time == form.time && a.kind == form.kind
    ensures a.duration == form.duration && a.notes == form.notes
    ensures a.completion.None? && a.rescheduling.None?
    ensures (forall p :: p in patients ==> p.id != form.patientId) ==> a.patientName == "Unknown"
    ensures (exists p :: p in patients && p.id == form.patientId) ==>
      exists p :: p in patients && p.id == form.patientId && a.patientName == p.name
    ensures FindPatient(patients, form.patientId).Some? ==>
      a.patientName == FindPatient(patients, form.patientId).value.name
  {
    var name := match FindPatient(patients, form.patientId)
                case None => "Unknown"
                case Some(p) => p.name;
    Appointment(id, form.patientId, name, form.date, form.time, form.kind, form.duration, form.notes,
                Scheduled, None, None)
  }

  /** Completed appointments keep their place and their record. */
  predicate CompletedKept(before: seq<Appointment>, after: seq<Appointment>) {
    |before| <= |after| && forall i :: 0 <= i < |before| && before[i].status == Completed ==> after[i] == before[i]
  }

  /** Whether the follow-up offer is made: the appointment's patient exists and has braces. */
  predicate BracesPatient(patients: seq<Patient>, patientId: int) {
    var p := FindPatient(patients, patientId);
    p.Some? && p.value.treatment == "Braces"
  }

  /** An analysis with the patient suggestion replaced. */
  function WithPatient(a: Analysis, detected: (Option<Patient>, real)): Analysis {
    a.(suggestions := a.suggestions.(patient := detected.0, patientConfidence := detected.1))
  }

  /**
   * One `forEach` of `performSearch`: the result of every item of `items`
   * that scores, in order.
   */
  method ScoreEach(items: seq<Item>, term: string) returns (results: seq<SearchResult>)
    ensures results == Hits(items, term)
  {
    results := [];
    ghost var done: seq<Item> := [];
    var i := 0;
    while i < |items|
      invariant 0 <= i <= |items|
      invariant done == items[..i]
      invariant results == Hits(done, term)
    {
      var it := items[i];
      var score := Score(it, term);
      if score > 0 {
        results := results + [SearchResult(it, score, MatchedFields(it, term))];
      }
      HitsSnoc(done, it, term);
      TakeOneMore(items, i);
      done := done + [it];
      i := i + 1;
    }
    assert items[..i] == items;
  }

  /**
   * The body of `detectPatientNames` for one file: scans the lowercased
   * patient names in order, keeping the first best match above one half,
   * and falls back to the patient at `roll`.
   */
  method DetectFor(fileName: string, patients: seq<Patient>, names: seq<string>, roll: nat)
    returns (detected: (Option<Patient>, real))
    requires |names| == |patients|
    requires forall j :: 0 <= j < |names| ==> names[j] == Lower(patients[j].name)
    requires roll < |patients| || |patients| == 0
    ensures detected == DetectPatient(fileName, patients, roll)
  {
    var lowered := Lower(fileName);
    ghost var cs := Confidences(fileName, patients);
    var detection := Detection(None, 0.0);
    var j := 0;
    while j < |patients|
      invariant 0 <= j <= |patients|
      invariant detection == Scan(cs[..j])
    {
      var c := MatchConfidence(lowered, names[j]);
      assert cs[..j + 1][..j] == cs[..j];
      if c > detection.confidence && c > AcceptThreshold {
        detection := Detection(Some(j), c);
      }
      j := j + 1;
    }
    assert cs[..j] == cs;
    if detection.best.Some? {
      detected := (Some(patients[detection.best.value]), detection.confidence);
    } else if |patients| > 0 {
      detected := (Some(patients[roll]), FallbackConfidence);
    } else {
      detected := (None, detection.confidence);
    }
  }

  class OrthoApp {
    var patients: seq<Patient>
    var appointments: seq<Appointment>
    /** The photo collection; absent until the treatments page is first loaded. */
    var treatmentPhotos: Option<seq<Photo>>
    /** The sample photos the treatments page loads on its first visit. */
    const samplePhotos: seq<Photo>
    var searchResults: seq<SearchResult>
    var isSearchActive: bool
    var currentTreatmentTab: string
    var uploadInProgress: bool
    var aiAnalysisResults: seq<Analysis>

    /**
     * A started application holding the given records in place of the
     * sample data it loads. No photo collection and no tab exist yet: both
     * appear when the treatments page is first loaded, which takes its
     * photos from `sample`.
     */
    constructor (patients0: seq<Patient>, appointments0: seq<Appointment>, sample: seq<Photo>)
      ensures patients == patients0 && appointments == appointments0
      ensures treatmentPhotos.None? && samplePhotos == sample
      ensures searchResults == [] && !isSearchActive
      ensures currentTreatmentTab == ""
      ensures !uploadInProgress && aiAnalysisResults == []
    {
      patients := patients0;
      appointments := appointments0;
      treatmentPhotos := None;
      samplePhotos := sample;
      searchResults := [];
      isSearchActive := false;
      currentTreatmentTab := "";
      uploadInProgress := false;
      aiAnalysisResults := [];
    }

    /** The photos the search looks at: none while the collection is not loaded. */
    function SearchablePhotos(): (photos: seq<Photo>)
      reads this
      ensures treatmentPhotos.None? ==> photos == []
      ensures treatmentPhotos.Some? ==> photos == treatmentPhotos.value
    {
      if treatmentPhotos.Some? then treatmentPhotos.value else []
    }

    /**
     * `loadTreatmentsPage`'s state: an unset (empty) tab becomes braces and
     * a missing collection becomes the sample photos; a set tab and a loaded
     * collection, even an empty one, are kept.
     */
    method LoadTreatmentsPage()
      modifies this`currentTreatmentTab, this`treatmentPhotos
      ensures currentTreatmentTab == if old(currentTreatmentTab) == "" then "braces" else old(currentTreatmentTab)
      ensures treatmentPhotos == if old(treatmentPhotos).None? then Some(samplePhotos) else old(treatmentPhotos)
      ensures currentTreatmentTab != "" && treatmentPhotos.Some?
    {
      if currentTreatmentTab == "" {
        currentTreatmentTab := "braces";
      }
      if treatmentPhotos.None? {
        treatmentPhotos := Some(samplePhotos);
      }
    }

    /** `handleGlobalSearch`: a query under two characters clears the search, a longer one runs it. */
    method HandleGlobalSearch(query: string)
      modifies this`searchResults, this`isSearchActive
      ensures |query| < MinQueryLength ==> !isSearchActive && searchResults == []
      ensures |query| >= MinQueryLength ==>
        isSearchActive && searchResults == SearchResults(query, patients, appointments, SearchablePhotos())
    {
      if |query| < MinQueryLength {
        ClearSearch();
        return;
      }
      isSearchActive := true;
      searchResults := PerformSearch(query);
    }

    /** `clearSearch`. */
    method ClearSearch()
      modifies this`searchResults, this`isSearchActive
      ensures !isSearchActive && searchResults == []
    {
      isSearchActive := false;
      searchResults := [];
    }

    /**
     * `performSearch`: scores patients, then appointments, then the photos
     * when they are loaded, collects every item that scores in that order,
     * then ranks the collection.
     */
    method PerformSearch(query: string) returns (results: seq<SearchResult>)
      ensures results == SearchResults(query, patients, appointments, SearchablePhotos())
    {
      var term := Lower(query);
      var fromPatients := ScoreEach(PatientItems(patients), term);
      var fromAppointments := ScoreEach(AppointmentItems(appointments), term);
      var fromPhotos := [];
      if treatmentPhotos.Some? {
        fromPhotos := ScoreEach(PhotoItems(treatmentPhotos.value), term);
      }
      CandidatesInOrder(query, patients, appointments, SearchablePhotos());
      results := Rank(fromPatients + fromAppointments + fromPhotos);
    }

    /** `addNewPatient`: a refused form changes nothing; an accepted one appends exactly one record. */
    method AddNewPatient(form: PatientForm, newId: int, today: Day) returns (refusal: Option<Refusal>)
      modifies this`patients
      ensures refusal == CheckPatientForm(form)
      ensures refusal.None? ==> patients == old(patients) + [NewPatient(form, newId, today)]
      ensures refusal.Some? ==> patients == old(patients)
    {
      refusal := CheckPatientForm(form);
      if refusal.Some? {
        return;
      }
      patients := patients + [NewPatient(form, newId, today)];
    }

    /**
     * `updatePatient`: an unknown id or a refused form changes nothing;
     * otherwise only the first record with that id is replaced.
     */
    method UpdatePatient(patientId: int, form: PatientForm, today: Day) returns (refusal: Option<Refusal>)
      modifies this`patients
      ensures |patients| == |old(patients)|
      ensures forall k :: 0 <= k < |patients| ==> patients[k].id == old(patients)[k].id
      ensures var index := FindIndex(old(patients), PatientWithId(patientId));
        && (index.None? ==> refusal == Some(PatientNotFound))
        && (index.Some? ==> refusal == CheckPatientForm(form))
        && (refusal.Some? ==> patients == old(patients))
        && (refusal.None? ==> index.Some? && patients == old(patients)[index.value :=
              UpdatedPatient(old(patients)[index.value], form, today)])
    {
      var index := FindIndex(patients, PatientWithId(patientId));
      if index.None? {
        return Some(PatientNotFound);
      }
      refusal := CheckPatientForm(form);
      if refusal.Some? {
        return;
      }
      var i := index.value;
      patients := patients[i := UpdatedPatient(patients[i], form, today)];
    }

    /** `addNewAppointment`: appends one Scheduled record numbered one past the collection's length. */
    method AddNewAppointment(form: AppointmentForm)
      modifies this`appointments
      ensures appointments == old(appointments) + [NewAppointment(form, |old(appointments)| + 1, patients)]
      ensures CompletedKept(old(appointments), appointments)
    {
      appointments := appointments + [NewAppointment(form, |appointments| + 1, patients)];
    }

    /**
     * `autoScheduleNextAppointment`: for a known patient appends the
     * follow-up two weeks after their latest appointment; for an unknown id
     * changes nothing.
     */
    method AutoScheduleNextAppointment(patientId: int, today: Day, newId: int) returns (booked: Option<Appointment>)
      modifies this`appointments
      ensures var patient := FindPatient(patients, patientId);
        && (patient.None? ==> booked.None? && appointments == old(appointments))
        && (patient.Some? ==> booked == Some(FollowUp(patient.value, old(appointments), today, newId))
                              && appointments == old(appointments) + [booked.value])
      ensures CompletedKept(old(appointments), appointments)
    {
      var patient := FindPatient(patients, patientId);
      if patient.None? {
        return None;
      }
      var a := FollowUp(patient.value, appointments, today, newId);
      appointments := appointments + [a];
      booked := Some(a);
    }

    /**
     * `markAppointmentComplete`: `notes` is the prompt's answer (absent when
     * cancelled). A missing or completed appointment and a cancelled prompt
     * change nothing; otherwise only that appointment is marked complete, and
     * the follow-up is offered when the patient has braces.
     */
    method MarkAppointmentComplete(appointmentId: int, notes: Option<string>, now: int)
      returns (outcome: CompletionOutcome)
      modifies this`appointments
      ensures var index := FindIndex(old(appointments), AppointmentWithId(appointmentId));
        && (index.None? ==> outcome == CompletionRefused(AppointmentNotFound))
        && (index.Some? && old(appointments)[index.value].status == Completed ==>
              outcome == CompletionRefused(AlreadyCompleted))
        && (index.Some? && old(appointments)[index.value].status != Completed && notes.None? ==>
              outcome == PromptCancelled)
        && (outcome.MarkedCompleted? <==> index.Some? && old(appointments)[index.value].status != Completed && notes.Some?)
        && (!outcome.MarkedCompleted? ==> appointments == old(appointments))
        && (outcome.MarkedCompleted? ==>
              && appointments == old(appointments)[index.value :=
                   MarkedComplete(old(appointments)[index.value], notes.value, now)]
              && outcome.followUpOffered == BracesPatient(patients, old(appointments)[index.value].patientId))
      ensures CompletedKept(old(appointments), appointments)
    {
      var index := FindIndex(appointments, AppointmentWithId(appointmentId));
      if index.None? {
        return CompletionRefused(AppointmentNotFound);
      }
      var i := index.value;
      var appointment := appointments[i];
      if appointment.status == Completed {
        return CompletionRefused(AlreadyCompleted);
      }
      if notes.None? {
        return PromptCancelled;
      }
      appointments := appointments[i := MarkedComplete(appointment, notes.value, now)];
      outcome := MarkedCompleted(BracesPatient(patients, appointment.patientId));
    }

    /**
     * `rescheduleAppointment`: `quick` is the answer to the quick-reschedule
     * question. Completed appointments are refused; the custom path only
     * opens the editor; the quick path moves only that appointment to the
     * next working day.
     */
    method RescheduleAppointment(appointmentId: int, quick: bool, now: int) returns (outcome: RescheduleOutcome)
      modifies this`appointments
      ensures var index := FindIndex(old(appointments), AppointmentWithId(appointmentId));
        && (index.None? ==> outcome == RescheduleRefused(AppointmentNotFound))
        && (index.Some? && old(appointments)[index.value].status == Completed ==>
              outcome == RescheduleRefused(CannotRescheduleCompleted))
        && (index.Some? && old(appointments)[index.value].status != Completed ==>
              outcome == if quick then MovedToNextWorkingDay else EditorOpened)
        && (outcome != MovedToNextWorkingDay ==> appointments == old(appointments))
        && (outcome == MovedToNextWorkingDay ==>
              index.Some? && appointments == old(appointments)[index.value :=
                QuickRescheduled(old(appointments)[index.value], now)])
      ensures CompletedKept(old(appointments), appointments)
    {
      var index := FindIndex(appointments, AppointmentWithId(appointmentId));
      if index.None? {
        return RescheduleRefused(AppointmentNotFound);
      }
      var i := index.value;
      var appointment := appointments[i];
      if appointment.status == Completed {
        return RescheduleRefused(CannotRescheduleCompleted);
      }
      if !quick {
        return EditorOpened;
      }
      appointments := appointments[i := QuickRescheduled(appointment, now)];
      outcome := MovedToNextWorkingDay;
    }

    /** `switchTreatmentTab`: sets the tab, then reloads the page, which turns an empty tab into braces. */
    method SwitchTreatmentTab(tab: string)
      modifies this`currentTreatmentTab, this`treatmentPhotos
      ensures currentTreatmentTab == if tab == "" then "braces" else tab
      ensures treatmentPhotos == if old(treatmentPhotos).None? then Some(samplePhotos) else old(treatmentPhotos)
    {
      currentTreatmentTab := tab;
      LoadTreatmentsPage();
    }

    /**
     * The photo list `renderTreatmentGallery` renders: exactly the photos on
     * the current tab that pass the patient and stage filters, in the
     * requested order, equal-ranked photos in collection order.
     */
    method RenderTreatmentGallery(patientFilter: Option<int>, stageFilter: Option<Stage>, order: SortOrder)
      returns (photos: seq<Photo>)
      requires treatmentPhotos.Some?
      ensures photos == GalleryView(treatmentPhotos.value, currentTreatmentTab, patientFilter, stageFilter, order)
      ensures multiset(photos)
           == multiset(Filter(treatmentPhotos.value, ShownFacet(currentTreatmentTab, patientFilter, stageFilter)))
    {
      photos := treatmentPhotos.value;
      if currentTreatmentTab != AllTab {
        photos := Filter(photos, TreatmentIs(currentTreatmentTab));
      }
      if patientFilter.Some? {
        photos := Filter(photos, PatientIs(patientFilter));
      }
      if stageFilter.Some? {
        photos := Filter(photos, StageIs(stageFilter.value));
      }
      photos := Ordering.SortByKey(photos, PhotoKey(order));
      GalleryContents(treatmentPhotos.value, currentTreatmentTab, patientFilter, stageFilter, order);
    }

    /**
     * `getTreatmentPhotoCount`: 0 before the collection is loaded, otherwise
     * the number of photos the tab shows when no other filter is set.
     */
    function TreatmentPhotoCount(tab: string): (n: nat)
      reads this
      ensures treatmentPhotos.None? ==> n == 0
      ensures treatmentPhotos.Some? ==>
        n == |GalleryView(treatmentPhotos.value, tab, None, None, Newest)| && n <= |treatmentPhotos.value|
    {
      if treatmentPhotos.None? then 0
      else
        PhotoCountMatchesGallery(treatmentPhotos.value, tab, Newest);
        PhotoCount(treatmentPhotos.value, tab)
    }

    /**
     * `detectPatientNames`: for each analysed file, the patient whose name
     * parts best cover the file name, else the patient at the file's `rolls`
     * entry (the source's random pick).
     */
    method DetectPatientNames(rolls: seq<nat>)
      requires |rolls| == |aiAnalysisResults|
      requires forall i :: 0 <= i < |rolls| ==> rolls[i] < |patients| || |patients| == 0
      modifies this`aiAnalysisResults
      ensures |aiAnalysisResults| == |old(aiAnalysisResults)|
      ensures forall i :: 0 <= i < |aiAnalysisResults| ==>
        aiAnalysisResults[i]
          == WithPatient(old(aiAnalysisResults)[i], DetectPatient(old(aiAnalysisResults)[i].fileName, patients, rolls[i]))
    {
      var patients := this.patients;
      var names := seq(|patients|, j requires 0 <= j < |patients| => Lower(patients[j].name));
      var i := 0;
      while i < |aiAnalysisResults|
        invariant 0 <= i <= |aiAnalysisResults| == |old(aiAnalysisResults)|
        invariant forall k :: 0 <= k < i ==>
          aiAnalysisResults[k]
            == WithPatient(old(aiAnalysisResults)[k], DetectPatient(old(aiAnalysisResults)[k].fileName, patients, rolls[k]))
        invariant forall k :: i <= k < |aiAnalysisResults| ==> aiAnalysisResults[k] == old(aiAnalysisResults)[k]
        decreases |aiAnalysisResults| - i
      {
        var result := aiAnalysisResults[i];
        var detected := DetectFor(result.fileName, patients, names, rolls[i]);
        aiAnalysisResults := aiAnalysisResults[i := WithPatient(result, detected)];
        i := i + 1;
      }
    }

    /**
     * `processSmartUpload`'s gate: the files approved or confident enough;
     * with none it refuses and changes nothing, otherwise the upload starts.
     */
    method ProcessSmartUpload() returns (refusal: Option<Refusal>, approved: seq<Analysis>)
      modifies this`uploadInProgress
      ensures approved == Filter(aiAnalysisResults, EligibleForCommit)
      ensures forall a :: a in approved <==> a in aiAnalysisResults && EligibleForCommit(a)
      ensures approved == [] <==> refusal == Some(NothingApproved)
      ensures refusal.None? <==> approved != []
      ensures refusal.Some? ==> uploadInProgress == old(uploadInProgress)
      ensures refusal.None? ==> uploadInProgress
    {
      approved := Filter(aiAnalysisResults, EligibleForCommit);
      if approved == [] {
        return Some(NothingApproved), approved;
      }
      uploadInProgress := true;
      refusal := None;
    }
  }
}
