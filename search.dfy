/**
 * Global relevance search. Every patient, appointment and photo is scored
 * against the lowercased query by adding a fixed weight for each field that
 * contains it; items scoring zero are dropped, the rest are stably sorted by
 * descending score and cut to the first ten.
 */
module Search {
  import opened Common
  import opened Text
  import opened Ordering
  import opened Calendar
  import opened Records

  /** Minimum query length (in characters) that starts a search. */
  const MinQueryLength: nat := 2

  /** Maximum number of results kept. */
  const MaxResults: nat := 10

  datatype Item = PatientItem(patient: Patient) | AppointmentItem(appointment: Appointment) | PhotoItem(photo: Photo)

  /** A ranked hit: the item, its relevance score and the fields reported as matching. */
  datatype SearchResult = SearchResult(item: Item, score: nat, matchedFields: seq<string>)

  /** `field && field.toLowerCase().includes(term)`: a present field whose folded text contains the term. */
  predicate FoldedHit(field: string, term: string) {
    |field| > 0 && Contains(Lower(field), term)
  }

  /** `field && field.includes(term)`: phone, date and time are compared without folding. */
  predicate ExactHit(field: string, term: string) {
    |field| > 0 && Contains(field, term)
  }

  /** `tags.some(tag => tag.toLowerCase().includes(term))`. */
  predicate AnyTagHit(tags: seq<string>, term: string) {
    exists t :: t in tags && Contains(Lower(t), term)
  }

  function Weight(hit: bool, w: nat): nat {
    if hit then w else 0
  }

  /** One row of a scoring table: the points a field adds when its test hits. */
  datatype Check = Check(weight: nat, hit: bool)

  /** The most a table can give. */
  function TotalWeight(checks: seq<Check>): nat
    decreases |checks|
  {
    if checks == [] then 0 else checks[0].weight + TotalWeight(checks[1..])
  }

  /** The points of the rows that hit. */
  function TableScore(checks: seq<Check>): nat
    decreases |checks|
  {
    if checks == [] then 0 else Weight(checks[0].hit, checks[0].weight) + TableScore(checks[1..])
  }

  /**
   * A table gives at most its total, at least the weight of any row that
   * hits, and (with every weight positive) nothing exactly when no row hits.
   */
  lemma {:induction false} TableScoreBounds(checks: seq<Check>)
    ensures TableScore(checks) <= TotalWeight(checks)
    ensures forall i :: 0 <= i < |checks| && checks[i].hit ==> TableScore(checks) >= checks[i].weight
    ensures (forall i :: 0 <= i < |checks| ==> checks[i].weight > 0) ==>
      (TableScore(checks) == 0 <==> forall i :: 0 <= i < |checks| ==> !checks[i].hit)
    decreases |checks|
  {
    if checks != [] {
      TableScoreBounds(checks[1..]);
      assert forall i :: 1 <= i < |checks| ==> checks[i] == checks[1..][i - 1];
    }
  }

  /** The patient table: name 10, email 8, phone 8, treatment 6, notes 4. */
  function PatientChecks(p: Patient, term: string): seq<Check> {
    [Check(10, FoldedHit(p.name, term)), Check(8, FoldedHit(p.email, term)), Check(8, ExactHit(p.phone, term)),
     Check(6, FoldedHit(p.treatment, term)), Check(4, FoldedHit(p.notes, term))]
  }

  /** The appointment table: patient name 10, type 8, status 6, notes 4, date 6, time 4. */
  function AppointmentChecks(a: Appointment, term: string): seq<Check> {
    [Check(10, FoldedHit(a.patientName, term)), Check(8, FoldedHit(a.kind, term)),
     Check(6, FoldedHit(StatusName(a.status), term)), Check(4, FoldedHit(a.notes, term)),
     Check(6, ExactHit(IsoDate(a.date), term)), Check(4, ExactHit(a.time, term))]
  }

  /** The photo table: patient name 10, title 8, description 6, treatment 6, stage 6, notes 4, any tag 4. */
  function PhotoChecks(ph: Photo, term: string): seq<Check> {
    [Check(10, FoldedHit(ph.patientName, term)), Check(8, FoldedHit(ph.title, term)),
     Check(6, FoldedHit(ph.description, term)), Check(6, FoldedHit(ph.treatmentType, term)),
     Check(6, FoldedHit(StageName(ph.stage), term)), Check(4, FoldedHit(ph.notes, term)),
     Check(4, AnyTagHit(ph.tags, term))]
  }

  function PatientScore(p: Patient, term: string): (score: nat)
    ensures score <= 36
    ensures score == 0 <==>
      !(FoldedHit(p.name, term) || FoldedHit(p.email, term) || ExactHit(p.phone, term)
        || FoldedHit(p.treatment, term) || FoldedHit(p.notes, term))
    ensures FoldedHit(p.name, term) ==> score >= 10
  {
    Weight(FoldedHit(p.name, term), 10)
    + Weight(FoldedHit(p.email, term), 8)
    + Weight(ExactHit(p.phone, term), 8)
    + Weight(FoldedHit(p.treatment, term), 6)
    + Weight(FoldedHit(p.notes, term), 4)
  }

  function AppointmentScore(a: Appointment, term: string): (score: nat)
    ensures score <= 38
    ensures score == 0 <==>
      !(FoldedHit(a.patientName, term) || FoldedHit(a.kind, term) || FoldedHit(StatusName(a.status), term)
        || FoldedHit(a.notes, term) || ExactHit(IsoDate(a.date), term) || ExactHit(a.time, term))
    ensures FoldedHit(a.patientName, term) ==> score >= 10
  {
    Weight(FoldedHit(a.patientName, term), 10)
    + Weight(FoldedHit(a.kind, term), 8)
    + Weight(FoldedHit(StatusName(a.status), term), 6)
    + Weight(FoldedHit(a.notes, term), 4)
    + Weight(ExactHit(IsoDate(a.date), term), 6)
    + Weight(ExactHit(a.time, term), 4)
  }

  function PhotoScore(ph: Photo, term: string): (score: nat)
    ensures score <= 44
    ensures score == 0 <==>
      !(FoldedHit(ph.patientName, term) || FoldedHit(ph.title, term) || FoldedHit(ph.description, term)
        || FoldedHit(ph.treatmentType, term) || FoldedHit(StageName(ph.stage), term)
        || FoldedHit(ph.notes, term) || AnyTagHit(ph.tags, term))
    ensures FoldedHit(ph.patientName, term) ==> score >= 10
  {
    Weight(FoldedHit(ph.patientName, term), 10)
    + Weight(FoldedHit(ph.title, term), 8)
    + Weight(FoldedHit(ph.description, term), 6)
    + Weight(FoldedHit(ph.treatmentType, term), 6)
    + Weight(FoldedHit(StageName(ph.stage), term), 6)
    + Weight(FoldedHit(ph.notes, term), 4)
    + Weight(AnyTagHit(ph.tags, term), 4)
  }

  /** A table with one more row in front scores that row's points more. */
  lemma TableCons(c: Check, rest: seq<Check>)
    ensures TableScore([c] + rest) == Weight(c.hit, c.weight) + TableScore(rest)
  {
    assert ([c] + rest)[1..] == rest;
  }

  /** Five-, six- and seven-row tables written out. */
  lemma Table5(c0: Check, c1: Check, c2: Check, c3: Check, c4: Check)
    ensures TableScore([c0, c1, c2, c3, c4])
         == Weight(c0.hit, c0.weight) + Weight(c1.hit, c1.weight) + Weight(c2.hit, c2.weight)
            + Weight(c3.hit, c3.weight) + Weight(c4.hit, c4.weight)
  {
    TableCons(c4, []);
    TableCons(c3, [c4]);
    TableCons(c2, [c3, c4]);
    TableCons(c1, [c2, c3, c4]);
    TableCons(c0, [c1, c2, c3, c4]);
    assert [c0, c1, c2, c3, c4] == [c0] + [c1, c2, c3, c4];
    assert [c1, c2, c3, c4] == [c1] + [c2, c3, c4];
    assert [c2, c3, c4] == [c2] + [c3, c4];
    assert [c3, c4] == [c3] + [c4];
    assert [c4] == [c4] + [];
  }

  lemma Table6(c0: Check, c1: Check, c2: Check, c3: Check, c4: Check, c5: Check)
    ensures TableScore([c0, c1, c2, c3, c4, c5])
         == Weight(c0.hit, c0.weight) + Weight(c1.hit, c1.weight) + Weight(c2.hit, c2.weight)
            + Weight(c3.hit, c3.weight) + Weight(c4.hit, c4.weight) + Weight(c5.hit, c5.weight)
  {
    Table5(c1, c2, c3, c4, c5);
    TableCons(c0, [c1, c2, c3, c4, c5]);
    assert [c0, c1, c2, c3, c4, c5] == [c0] + [c1, c2, c3, c4, c5];
  }

  lemma Table7(c0: Check, c1: Check, c2: Check, c3: Check, c4: Check, c5: Check, c6: Check)
    ensures TableScore([c0, c1, c2, c3, c4, c5, c6])
         == Weight(c0.hit, c0.weight) + Weight(c1.hit, c1.weight) + Weight(c2.hit, c2.weight)
            + Weight(c3.hit, c3.weight) + Weight(c4.hit, c4.weight) + Weight(c5.hit, c5.weight)
            + Weight(c6.hit, c6.weight)
  {
    Table6(c1, c2, c3, c4, c5, c6);
    TableCons(c0, [c1, c2, c3, c4, c5, c6]);
    assert [c0, c1, c2, c3, c4, c5, c6] == [c0] + [c1, c2, c3, c4, c5, c6];
  }

  /** The patient score is the sum of the points of its table's rows that hit. */
  lemma PatientScoreIsTable(p: Patient, term: string)
    ensures PatientScore(p, term) == TableScore(PatientChecks(p, term))
  {
    var c := PatientChecks(p, term);
    Table5(c[0], c[1], c[2], c[3], c[4]);
  }

  /** The appointment score is the sum of the points of its table's rows that hit. */
  lemma AppointmentScoreIsTable(a: Appointment, term: string)
    ensures AppointmentScore(a, term) == TableScore(AppointmentChecks(a, term))
  {
    var c := AppointmentChecks(a, term);
    Table6(c[0], c[1], c[2], c[3], c[4], c[5]);
  }

  /** The photo score is the sum of the points of its table's rows that hit. */
  lemma PhotoScoreIsTable(ph: Photo, term: string)
    ensures PhotoScore(ph, term) == TableScore(PhotoChecks(ph, term))
  {
    var c := PhotoChecks(ph, term);
    Table7(c[0], c[1], c[2], c[3], c[4], c[5], c[6]);
  }

  /** `calculateSearchScore`. */
  function Score(it: Item, term: string): nat {
    match it
    case PatientItem(p) => PatientScore(p, term)
    case AppointmentItem(a) => AppointmentScore(a, term)
    case PhotoItem(ph) => PhotoScore(ph, term)
  }

  /** The field names `getMatchedFields` can report for an item, in the order it checks them. */
  function ReportableFields(it: Item): seq<string> {
    match it
    case PatientItem(_) => ["name", "email", "phone", "treatment"]
    case AppointmentItem(_) => ["patient", "type", "status", "date"]
    case PhotoItem(_) => ["patient", "title", "treatment", "stage"]
  }

  /** Whether the field reported under `name` matches: the same test the score applies to that field. */
  predicate FieldHit(it: Item, name: string, term: string) {
    match it
    case PatientItem(p) =>
      (name == "name" && FoldedHit(p.name, term)) || (name == "email" && FoldedHit(p.email, term))
      || (name == "phone" && ExactHit(p.phone, term)) || (name == "treatment" && FoldedHit(p.treatment, term))
    case AppointmentItem(a) =>
      (name == "patient" && FoldedHit(a.patientName, term)) || (name == "type" && FoldedHit(a.kind, term))
      || (name == "status" && FoldedHit(StatusName(a.status), term))
      || (name == "date" && ExactHit(IsoDate(a.date), term))
    case PhotoItem(ph) =>
      (name == "patient" && FoldedHit(ph.patientName, term)) || (name == "title" && FoldedHit(ph.title, term))
      || (name == "treatment" && FoldedHit(ph.treatmentType, term))
      || (name == "stage" && FoldedHit(StageName(ph.stage), term))
  }

  function Present(hit: bool, name: string): seq<string> {
    if hit then [name] else []
  }

  /** The names of the four checked fields that matched, in checking order. */
  function Pick4(h1: bool, n1: string, h2: bool, n2: string, h3: bool, n3: string, h4: bool, n4: string)
    : (picked: seq<string>)
    ensures forall f :: f in picked <==> (h1 && f == n1) || (h2 && f == n2) || (h3 && f == n3) || (h4 && f == n4)
    ensures picked == [] <==> !(h1 || h2 || h3 || h4)
  {
    Present(h1, n1) + Present(h2, n2) + Present(h3, n3) + Present(h4, n4)
  }

  /**
   * `getMatchedFields`: the reportable fields that match, in fixed order.
   * Notes, description, time and tags add to the score but are never reported.
   */
  function MatchedFields(it: Item, term: string): (fields: seq<string>)
    ensures fields != [] ==> Score(it, term) > 0
  {
    match it
    case PatientItem(p) =>
      Pick4(FoldedHit(p.name, term), "name", FoldedHit(p.email, term), "email",
            ExactHit(p.phone, term), "phone", FoldedHit(p.treatment, term), "treatment")
    case AppointmentItem(a) =>
      Pick4(FoldedHit(a.patientName, term), "patient", FoldedHit(a.kind, term), "type",
            FoldedHit(StatusName(a.status), term), "status", ExactHit(IsoDate(a.date), term), "date")
    case PhotoItem(ph) =>
      Pick4(FoldedHit(ph.patientName, term), "patient", FoldedHit(ph.title, term), "title",
            FoldedHit(ph.treatmentType, term), "treatment", FoldedHit(StageName(ph.stage), term), "stage")
  }

  /** The field test of one item as a filter over field names. */
  function HitsField(it: Item, term: string): string -> bool {
    (name: string) => FieldHit(it, name, term)
  }

  /** Filtering a list with one more name in front. */
  lemma FilterFront(n: string, rest: seq<string>, keep: string -> bool)
    ensures Filter([n] + rest, keep) == Present(keep(n), n) + Filter(rest, keep)
  {
    assert ([n] + rest)[1..] == rest;
  }

  /** Filtering a four-name list keeps the names whose test holds, in list order. */
  lemma FilterFour(n1: string, n2: string, n3: string, n4: string, keep: string -> bool)
    ensures Filter([n1, n2, n3, n4], keep) == Pick4(keep(n1), n1, keep(n2), n2, keep(n3), n3, keep(n4), n4)
  {
    var p1, p2, p3, p4 := Present(keep(n1), n1), Present(keep(n2), n2), Present(keep(n3), n3), Present(keep(n4), n4);
    calc {
      Filter([n1, n2, n3, n4], keep);
      { assert [n1, n2, n3, n4] == [n1] + [n2, n3, n4]; FilterFront(n1, [n2, n3, n4], keep); }
      p1 + Filter([n2, n3, n4], keep);
      { assert [n2, n3, n4] == [n2] + [n3, n4]; FilterFront(n2, [n3, n4], keep); }
      p1 + (p2 + Filter([n3, n4], keep));
      { assert [n3, n4] == [n3] + [n4]; FilterFront(n3, [n4], keep); }
      p1 + (p2 + (p3 + Filter([n4], keep)));
      { assert [n4] == [n4] + []; FilterFront(n4, [], keep); assert p4 + [] == p4; }
      p1 + (p2 + (p3 + p4));
      p1 + p2 + p3 + p4;
    }
  }

  /** The reported fields are the item's reportable fields that hit, in the order the source checks them. */
  lemma MatchedFieldsInOrder(it: Item, term: string)
    ensures MatchedFields(it, term) == Filter(ReportableFields(it), HitsField(it, term))
  {
    match it {
      case PatientItem(p) => PatientFieldsInOrder(p, term);
      case AppointmentItem(a) => AppointmentFieldsInOrder(a, term);
      case PhotoItem(ph) => PhotoFieldsInOrder(ph, term);
    }
  }

  lemma PatientFieldsInOrder(p: Patient, term: string)
    ensures MatchedFields(PatientItem(p), term) == Filter(ReportableFields(PatientItem(p)), HitsField(PatientItem(p), term))
  {
    var keep := HitsField(PatientItem(p), term);
    assert keep("name") == FoldedHit(p.name, term) && keep("email") == FoldedHit(p.email, term);
    assert keep("phone") == ExactHit(p.phone, term) && keep("treatment") == FoldedHit(p.treatment, term);
    FilterFour("name", "email", "phone", "treatment", keep);
  }

  /** The field test behind each of an appointment's reported field names. */
  lemma AppointmentFieldTests(a: Appointment, term: string)
    ensures FieldHit(AppointmentItem(a), "patient", term) == FoldedHit(a.patientName, term)
    ensures FieldHit(AppointmentItem(a), "type", term) == FoldedHit(a.kind, term)
    ensures FieldHit(AppointmentItem(a), "status", term) == FoldedHit(StatusName(a.status), term)
    ensures FieldHit(AppointmentItem(a), "date", term) == ExactHit(IsoDate(a.date), term)
  {
    assert "date"[0] != "type"[0];
  }

  lemma AppointmentFieldsInOrder(a: Appointment, term: string)
    ensures MatchedFields(AppointmentItem(a), term)
         == Filter(ReportableFields(AppointmentItem(a)), HitsField(AppointmentItem(a), term))
  {
    var keep := HitsField(AppointmentItem(a), term);
    calc {
      MatchedFields(AppointmentItem(a), term);
      Pick4(FoldedHit(a.patientName, term), "patient", FoldedHit(a.kind, term), "type",
            FoldedHit(StatusName(a.status), term), "status", ExactHit(IsoDate(a.date), term), "date");
      { AppointmentFieldTests(a, term); }
      Pick4(keep("patient"), "patient", keep("type"), "type", keep("status"), "status", keep("date"), "date");
      { FilterFour("patient", "type", "status", "date", keep); }
      Filter(["patient", "type", "status", "date"], keep);
    }
  }

  lemma PhotoFieldsInOrder(ph: Photo, term: string)
    ensures MatchedFields(PhotoItem(ph), term) == Filter(ReportableFields(PhotoItem(ph)), HitsField(PhotoItem(ph), term))
  {
    var keep := HitsField(PhotoItem(ph), term);
    assert keep("patient") == FoldedHit(ph.patientName, term) && keep("title") == FoldedHit(ph.title, term);
    assert keep("treatment") == FoldedHit(ph.treatmentType, term);
    assert keep("stage") == FoldedHit(StageName(ph.stage), term);
    FilterFour("patient", "title", "treatment", "stage", keep);
  }

  /** A field is reported exactly when it is one of the item's reportable fields and its test hits. */
  lemma MatchedFieldsExact(it: Item, term: string, f: string)
    ensures f in MatchedFields(it, term) <==> f in ReportableFields(it) && FieldHit(it, f, term)
  {
    match it
    case PatientItem(p) =>
      assert ReportableFields(it) == ["name", "email", "phone", "treatment"];
    case AppointmentItem(a) =>
      assert ReportableFields(it) == ["patient", "type", "status", "date"];
    case PhotoItem(ph) =>
      assert ReportableFields(it) == ["patient", "title", "treatment", "stage"];
  }

  /** Notes, tags, description and time are never reported, although they count towards the score. */
  lemma UnreportedFields(it: Item, term: string, f: string)
    requires f == "notes" || f == "tags" || f == "description" || f == "time"
    ensures f !in MatchedFields(it, term)
  {
    match it {
      case PatientItem(_) => assert f != "name" && f != "email" && f != "phone" && f != "treatment";
      case AppointmentItem(_) => assert f != "patient" && f != "type" && f != "status" && f != "date";
      case PhotoItem(_) => assert f != "patient" && f != "title" && f != "treatment" && f != "stage";
    }
  }

  /** A patient found only through the notes scores 4 and reports no matched field. */
  lemma NotesOnlyPatient(p: Patient, term: string)
    requires FoldedHit(p.notes, term)
    requires !FoldedHit(p.name, term) && !FoldedHit(p.email, term)
    requires !ExactHit(p.phone, term) && !FoldedHit(p.treatment, term)
    ensures Score(PatientItem(p), term) == 4
    ensures MatchedFields(PatientItem(p), term) == []
  {
  }

  /** The result record `performSearch` builds for an item. */
  function ResultFor(it: Item, term: string): SearchResult {
    SearchResult(it, Score(it, term), MatchedFields(it, term))
  }

  /** The items with a positive score, each wrapped as a result, in collection order. */
  function Hits(items: seq<Item>, term: string): (rs: seq<SearchResult>)
    ensures |rs| <= |items|
    ensures forall r :: r in rs ==> r.score > 0 && r == ResultFor(r.item, term) && r.item in items
    ensures forall it :: it in items ==> (ResultFor(it, term) in rs <==> Score(it, term) > 0)
    decreases |items|
  {
    if items == [] then []
    else
      var init, last := items[..|items| - 1], items[|items| - 1];
      assert items == init + [last];
      Hits(init, term) + (if Score(last, term) > 0 then [ResultFor(last, term)] else [])
  }

  /** Scoring one more item appends its result exactly when it scores. */
  lemma HitsSnoc(items: seq<Item>, it: Item, term: string)
    ensures Hits(items + [it], term)
         == Hits(items, term) + (if Score(it, term) > 0 then [ResultFor(it, term)] else [])
  {
    assert (items + [it])[..|items|] == items;
  }

  /** Scoring two lists one after the other collects the results of each, in order. */
  lemma {:induction false} HitsConcat(a: seq<Item>, b: seq<Item>, term: string)
    ensures Hits(a + b, term) == Hits(a, term) + Hits(b, term)
    decreases |b|
  {
    if b == [] {
      assert a + b == a;
    } else {
      var init, last := b[..|b| - 1], b[|b| - 1];
      assert b == init + [last];
      assert a + b == (a + init) + [last];
      var tail := if Score(last, term) > 0 then [ResultFor(last, term)] else [];
      calc {
        Hits(a + b, term);
        Hits((a + init) + [last], term);
        { HitsSnoc(a + init, last, term); }
        Hits(a + init, term) + tail;
        { HitsConcat(a, init, term); }
        (Hits(a, term) + Hits(init, term)) + tail;
        Hits(a, term) + (Hits(init, term) + tail);
        { HitsSnoc(init, last, term); }
        Hits(a, term) + Hits(init + [last], term);
        Hits(a, term) + Hits(b, term);
      }
    }
  }

  function PatientItems(ps: seq<Patient>): seq<Item> {
    seq(|ps|, i requires 0 <= i < |ps| => PatientItem(ps[i]))
  }

  function AppointmentItems(appts: seq<Appointment>): seq<Item> {
    seq(|appts|, i requires 0 <= i < |appts| => AppointmentItem(appts[i]))
  }

  function PhotoItems(photos: seq<Photo>): seq<Item> {
    seq(|photos|, i requires 0 <= i < |photos| => PhotoItem(photos[i]))
  }

  /** Everything searched, in the order `performSearch` visits it: patients, appointments, photos. */
  function AllItems(ps: seq<Patient>, appts: seq<Appointment>, photos: seq<Photo>): seq<Item> {
    PatientItems(ps) + AppointmentItems(appts) + PhotoItems(photos)
  }

  /** The sort key of a result: descending score (`b.score - a.score`). */
  function ScoreKey(r: SearchResult): seq<int> {
    [-(r.score as int)]
  }

  /** All scored results of a search, before ranking. */
  function Candidates(query: string, ps: seq<Patient>, appts: seq<Appointment>, photos: seq<Photo>): seq<SearchResult> {
    Hits(AllItems(ps, appts, photos), Lower(query))
  }

  /** The candidates are the patients' results, then the appointments', then the photos'. */
  lemma CandidatesInOrder(query: string, ps: seq<Patient>, appts: seq<Appointment>, photos: seq<Photo>)
    ensures Candidates(query, ps, appts, photos)
         == Hits(PatientItems(ps), Lower(query)) + Hits(AppointmentItems(appts), Lower(query))
            + Hits(PhotoItems(photos), Lower(query))
  {
    var term := Lower(query);
    HitsConcat(PatientItems(ps), AppointmentItems(appts), term);
    HitsConcat(PatientItems(ps) + AppointmentItems(appts), PhotoItems(photos), term);
  }

  /** Ranking any list of results leaves its first ten in non-increasing score order. */
  lemma RankedTake(cands: seq<SearchResult>)
    ensures var r := Take(SortByKey(cands, ScoreKey), MaxResults);
      forall i, j :: 0 <= i < j < |r| ==> r[i].score >= r[j].score
  {
    var sorted := SortByKey(cands, ScoreKey);
    SortByKeySorted(cands, ScoreKey);
    var r := Take(sorted, MaxResults);
    forall i, j | 0 <= i < j < |r| ensures r[i].score >= r[j].score {
      assert r[i] == sorted[i] && r[j] == sorted[j];
      assert !KeyBelow(ScoreKey(sorted[j]), ScoreKey(sorted[i]));
      SingleKeyBelow(-(r[j].score as int), -(r[i].score as int));
    }
  }

  /** Cutting a ranked list to ten keeps only candidates and drops none that outscores a kept one. */
  lemma TakeKeepsBest(cands: seq<SearchResult>)
    ensures var r := Take(SortByKey(cands, ScoreKey), MaxResults);
      (forall x :: x in r ==> x in cands)
      && forall c :: c in cands && c !in r ==> |r| == MaxResults && forall x :: x in r ==> x.score >= c.score
  {
    var sorted := SortByKey(cands, ScoreKey);
    SortByKeySorted(cands, ScoreKey);
    SortByKeyPermutes(cands, ScoreKey);
    var r := Take(sorted, MaxResults);
    forall x | x in r ensures x in cands {
      assert x in multiset(sorted);
    }
    forall c | c in cands && c !in r
      ensures |r| == MaxResults && forall x :: x in r ==> x.score >= c.score
    {
      assert c in multiset(sorted);
      var j :| 0 <= j < |sorted| && sorted[j] == c;
      assert j >= MaxResults;
      forall x | x in r ensures x.score >= c.score {
        var i :| 0 <= i < |r| && r[i] == x;
        assert sorted[i] == x;
        assert !KeyBelow(ScoreKey(sorted[j]), ScoreKey(sorted[i]));
        SingleKeyBelow(-(c.score as int), -(x.score as int));
      }
    }
  }

  /**
   * The ranking step of `performSearch`: stably sorted by descending score,
   * first ten kept. Only candidates appear, best first, and a candidate is
   * cut only when ten results score at least as much.
   */
  function Rank(cands: seq<SearchResult>): (r: seq<SearchResult>)
    ensures |r| == if |cands| < MaxResults then |cands| else MaxResults
    ensures forall x :: x in r ==> x in cands
    ensures forall i, j :: 0 <= i < j < |r| ==> r[i].score >= r[j].score
    ensures forall c :: c in cands && c !in r ==> |r| == MaxResults && forall x :: x in r ==> x.score >= c.score
  {
    RankedTake(cands);
    TakeKeepsBest(cands);
    Take(SortByKey(cands, ScoreKey), MaxResults)
  }

  /**
   * Ties keep collection order: the results scoring `k` are the first of the
   * candidates scoring `k`.
   */
  lemma RankStable(cands: seq<SearchResult>, k: int)
    ensures IsPrefix(WithKey(Rank(cands), ScoreKey, [-k]), WithKey(cands, ScoreKey, [-k]))
  {
    var sorted := SortByKey(cands, ScoreKey);
    SortByKeyStable(cands, ScoreKey, [-k]);
    if |sorted| > MaxResults {
      WithKeyPrefix(sorted, MaxResults, ScoreKey, [-k]);
    }
  }

  /** A searched item that scores but is not among `results`. */
  predicate Dropped(it: Item, query: string, ps: seq<Patient>, appts: seq<Appointment>, photos: seq<Photo>,
                    results: seq<SearchResult>)
  {
    it in AllItems(ps, appts, photos) && Score(it, Lower(query)) > 0 && ResultFor(it, Lower(query)) !in results
  }

  /**
   * `performSearch`: every result is the scored record of a searched item
   * with a positive score, listed best first; an item that scores but is
   * missing was cut behind ten results scoring at least as much.
   */
  function SearchResults(query: string, ps: seq<Patient>, appts: seq<Appointment>, photos: seq<Photo>)
    : (results: seq<SearchResult>)
    ensures |results| <= MaxResults
    ensures forall r :: r in results ==>
      r.score > 0 && r == ResultFor(r.item, Lower(query)) && r.item in AllItems(ps, appts, photos)
    ensures forall i, j :: 0 <= i < j < |results| ==> results[i].score >= results[j].score
    ensures forall it :: Dropped(it, query, ps, appts, photos, results) ==>
      |results| == MaxResults && forall x :: x in results ==> x.score >= Score(it, Lower(query))
  {
    Rank(Candidates(query, ps, appts, photos))
  }

  /** With no photo collection the search reports only patients and appointments. */
  lemma NoPhotoResultsWithoutPhotos(query: string, ps: seq<Patient>, appts: seq<Appointment>)
    ensures forall r :: r in SearchResults(query, ps, appts, []) ==> !r.item.PhotoItem?
  {
    forall r | r in SearchResults(query, ps, appts, []) ensures !r.item.PhotoItem? {
      NoPhotoItemsWithoutPhotos(r.item, ps, appts);
    }
  }

  /** Without photos, every searched item is a patient or an appointment. */
  lemma NoPhotoItemsWithoutPhotos(it: Item, ps: seq<Patient>, appts: seq<Appointment>)
    requires it in AllItems(ps, appts, [])
    ensures !it.PhotoItem?
  {
    var pi, ai := PatientItems(ps), AppointmentItems(appts);
    assert AllItems(ps, appts, []) == pi + ai;
    if it in pi {
      var k :| 0 <= k < |pi| && pi[k] == it;
    } else {
      var k :| 0 <= k < |ai| && ai[k] == it;
    }
  }
}
