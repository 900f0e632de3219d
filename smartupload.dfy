/**
 * The deterministic decisions of the smart upload: which patient a file name
 * points at (the share of the patient's name parts found in the file name)
 * and which analysed files are committed.
 */
module SmartUpload {
  import opened Common
  import opened Text
  import opened Records

  /** The suggestion fields of one analysed file that this model follows. */
  datatype Suggestions = Suggestions(
    patient: Option<Patient>,
    patientConfidence: real,
    approved: bool,
    overallConfidence: real)

  /** One entry of `aiAnalysisResults`. */
  datatype Analysis = Analysis(fileName: string, suggestions: Suggestions)

  /** A patient is suggested only above this share of matched name parts. */
  const AcceptThreshold: real := 0.5

  /** The confidence given to the randomly chosen fallback patient. */
  const FallbackConfidence: real := 0.3

  /** Unapproved files are committed from this overall confidence on. */
  const CommitThreshold: real := 0.8

  /** The pieces of a lowercased patient name split on single spaces. */
  function NameParts(name: string): (parts: seq<string>)
    ensures |parts| >= 1
  {
    SplitOnSpace(Lower(name))
  }

  /** The number of `parts` whose lowercase form occurs in `fileName`. */
  function MatchedParts(fileName: string, parts: seq<string>): (n: nat)
    ensures n <= |parts|
    decreases |parts|
  {
    if parts == [] then 0
    else MatchedParts(fileName, parts[..|parts| - 1])
         + (if Contains(fileName, Lower(parts[|parts| - 1])) then 1 else 0)
  }

  /** Matched parts over all parts: the share of the patient's name found in the file name. */
  function NameConfidence(fileName: string, name: string): (c: real)
    ensures 0.0 <= c <= 1.0
    ensures c == 1.0 <==> MatchedParts(fileName, NameParts(name)) == |NameParts(name)|
    ensures c > AcceptThreshold <==> 2 * MatchedParts(fileName, NameParts(name)) > |NameParts(name)|
  {
    var m, n := MatchedParts(fileName, NameParts(name)), |NameParts(name)|;
    RatioBounds(m, n);
    (m as real) / (n as real)
  }

  lemma RatioBounds(m: nat, n: nat)
    requires 0 < n && m <= n
    ensures 0.0 <= (m as real) / (n as real) <= 1.0
    ensures (m as real) / (n as real) == 1.0 <==> m == n
    ensures (m as real) / (n as real) > 0.5 <==> 2 * m > n
  {
    var r := (m as real) / (n as real);
    assert r * (n as real) == m as real;
    HalfCompare(r, m as real, n as real);
  }

  lemma HalfCompare(r: real, m: real, n: real)
    requires n > 0.0 && r * n == m
    ensures r > 0.5 <==> 2.0 * m > n
  {
    if r > 0.5 {
      MultiplyStrict(0.5, r, n);
    } else {
      MultiplyMonotonic(r, 0.5, n);
    }
  }

  lemma MultiplyStrict(a: real, b: real, c: real)
    requires a < b && c > 0.0
    ensures a * c < b * c
  {
  }

  lemma MultiplyMonotonic(a: real, b: real, c: real)
    requires a <= b && c >= 0.0
    ensures a * c <= b * c
  {
  }

  /**
   * The inner loop of `detectPatientNames` for one patient: counts the name
   * parts found in the lowercased file name and divides by their number.
   */
  method MatchConfidence(fileName: string, name: string) returns (c: real)
    ensures c == NameConfidence(fileName, name)
  {
    var parts := NameParts(name);
    var matches := 0;
    var k := 0;
    while k < |parts|
      invariant 0 <= k <= |parts|
      invariant matches == MatchedParts(fileName, parts[..k])
    {
      assert parts[..k + 1][..k] == parts[..k];
      if Contains(fileName, Lower(parts[k])) {
        matches := matches + 1;
      }
      k := k + 1;
    }
    assert parts[..k] == parts;
    c := (matches as real) / (|parts| as real);
  }

  /** The state of the scan over patients: the index picked so far and its confidence. */
  datatype Detection = Detection(best: Option<nat>, confidence: real)

  /**
   * The scan of `detectPatientNames` over the confidences of the patients in
   * order: a patient replaces the current pick when its confidence is
   * strictly higher and above one half.
   */
  function Scan(confidences: seq<real>): (d: Detection)
    ensures d.best.Some? ==> d.best.value < |confidences|
    decreases |confidences|
  {
    if confidences == [] then Detection(None, 0.0)
    else
      var prev := Scan(confidences[..|confidences| - 1]);
      var c := confidences[|confidences| - 1];
      if c > prev.confidence && c > AcceptThreshold then Detection(Some(|confidences| - 1), c) else prev
  }

  /**
   * The scan finds the first patient with the highest confidence, provided
   * that confidence is above one half; otherwise it finds nobody.
   */
  lemma {:induction false} ScanFindsFirstBest(confidences: seq<real>)
    ensures var d := Scan(confidences);
      d.best.None? <==> forall i :: 0 <= i < |confidences| ==> confidences[i] <= AcceptThreshold
    ensures var d := Scan(confidences);
      d.best.None? ==> d.confidence == 0.0
    ensures var d := Scan(confidences);
      d.best.Some? ==>
        && d.confidence == confidences[d.best.value]
        && d.confidence > AcceptThreshold
        && (forall i :: 0 <= i < |confidences| ==> confidences[i] <= d.confidence)
        && (forall i :: 0 <= i < d.best.value ==> confidences[i] < d.confidence)
    decreases |confidences|
  {
    if confidences != [] {
      var init := confidences[..|confidences| - 1];
      ScanFindsFirstBest(init);
      assert forall i :: 0 <= i < |init| ==> init[i] == confidences[i];
    }
  }

  /** Each patient's confidence for a file name, in collection order. */
  function Confidences(fileName: string, patients: seq<Patient>): (cs: seq<real>)
    ensures |cs| == |patients|
    ensures forall i :: 0 <= i < |patients| ==> cs[i] == NameConfidence(Lower(fileName), Lower(patients[i].name))
  {
    seq(|patients|, i requires 0 <= i < |patients| => NameConfidence(Lower(fileName), Lower(patients[i].name)))
  }

  /**
   * The suggestion made for one file: the scan's pick, else the patient at
   * position `roll` (the source's random choice) with confidence 0.3, else
   * nobody when there are no patients.
   */
  function DetectPatient(fileName: string, patients: seq<Patient>, roll: nat): (r: (Option<Patient>, real))
    requires roll < |patients| || |patients| == 0
    ensures r.0.None? <==> |patients| == 0
    ensures |patients| == 0 ==> r == (None, 0.0)
    ensures r.0.Some? ==> r.0.value in patients
    ensures r.1 == 0.0 || r.1 == FallbackConfidence || r.1 > AcceptThreshold
    ensures var cs := Confidences(fileName, patients);
      (exists i :: 0 <= i < |cs| && cs[i] > AcceptThreshold) ==>
        exists k :: 0 <= k < |cs| && r == (Some(patients[k]), cs[k])
          && (forall i :: 0 <= i < |cs| ==> cs[i] <= cs[k])
          && (forall i :: 0 <= i < k ==> cs[i] < cs[k])
    ensures var cs := Confidences(fileName, patients);
      |patients| > 0 && (forall i :: 0 <= i < |cs| ==> cs[i] <= AcceptThreshold) ==>
        r == (Some(patients[roll]), FallbackConfidence)
  {
    var d := Scan(Confidences(fileName, patients));
    ScanFindsFirstBest(Confidences(fileName, patients));
    if d.best.Some? then (Some(patients[d.best.value]), d.confidence)
    else if |patients| > 0 then (Some(patients[roll]), FallbackConfidence)
    else (None, d.confidence)
  }

  /** A file whose name contains every part of exactly one patient's name is given that patient. */
  lemma FullNameWins(fileName: string, patients: seq<Patient>, roll: nat, k: nat)
    requires roll < |patients| || |patients| == 0
    requires k < |patients|
    requires NameConfidence(Lower(fileName), Lower(patients[k].name)) == 1.0
    requires forall i :: 0 <= i < |patients| && i != k ==> NameConfidence(Lower(fileName), Lower(patients[i].name)) < 1.0
    ensures DetectPatient(fileName, patients, roll) == (Some(patients[k]), 1.0)
  {
    var cs := Confidences(fileName, patients);
    ScanFindsFirstBest(cs);
    assert cs[k] == 1.0;
  }

  /** `processSmartUpload`'s selection rule: approved by the user, or confident enough. */
  predicate EligibleForCommit(a: Analysis) {
    a.suggestions.approved || a.suggestions.overallConfidence >= CommitThreshold
  }
}
