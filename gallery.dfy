/**
 * The treatment photo gallery: the tab, patient and stage filters, the four
 * sort orders, and the per-tab photo counts shown on the tabs.
 */
module Gallery {
  import opened Common
  import opened Ordering
  import opened Records

  /** The tab value that shows every treatment. */
  const AllTab := "all"

  /** The gallery's sort menu; an empty choice means Newest. */
  datatype SortOrder = Newest | Oldest | ByPatient | ByStage

  /** The fixed stage order of the 'stage' sort. */
  function StageOrdinal(s: Stage): (n: int)
    ensures 1 <= n <= 4
  {
    match s
    case Before => 1
    case Progress => 2
    case Adjustment => 3
    case Completion => 4
  }

  predicate InTab(ph: Photo, tab: string) {
    tab == AllTab || ph.treatmentType == tab
  }

  /** `photo.patientId == patientFilter`: a photo without a patient never matches a set filter. */
  predicate ForPatient(ph: Photo, patientFilter: Option<int>) {
    patientFilter.None? || ph.patientId == patientFilter
  }

  predicate AtStage(ph: Photo, stageFilter: Option<Stage>) {
    stageFilter.None? || ph.stage == stageFilter.value
  }

  /** A photo passes all three facets. */
  predicate Shown(ph: Photo, tab: string, patientFilter: Option<int>, stageFilter: Option<Stage>) {
    InTab(ph, tab) && ForPatient(ph, patientFilter) && AtStage(ph, stageFilter)
  }

  /** The three comparisons the filter steps apply. */
  function TreatmentIs(tab: string): Photo -> bool {
    (ph: Photo) => ph.treatmentType == tab
  }

  function PatientIs(patientFilter: Option<int>): Photo -> bool {
    (ph: Photo) => ph.patientId == patientFilter
  }

  function StageIs(stage: Stage): Photo -> bool {
    (ph: Photo) => ph.stage == stage
  }

  /** The filter steps of `renderTreatmentGallery`, each applied only when its facet is set. */
  function FilterPhotos(photos: seq<Photo>, tab: string, patientFilter: Option<int>, stageFilter: Option<Stage>)
    : (r: seq<Photo>)
    ensures forall ph :: ph in r <==> ph in photos && Shown(ph, tab, patientFilter, stageFilter)
  {
    var byTab := FilterIf(tab != AllTab, photos, TreatmentIs(tab));
    var byPatient := FilterIf(patientFilter.Some?, byTab, PatientIs(patientFilter));
    FilterIf(stageFilter.Some?, byPatient, StageIs(if stageFilter.Some? then stageFilter.value else Before))
  }

  /** Each facet as a predicate that keeps everything when the facet is not set. */
  function TabFacet(tab: string): Photo -> bool {
    (ph: Photo) => InTab(ph, tab)
  }

  function PatientFacet(patientFilter: Option<int>): Photo -> bool {
    (ph: Photo) => ForPatient(ph, patientFilter)
  }

  function StageFacet(stageFilter: Option<Stage>): Photo -> bool {
    (ph: Photo) => AtStage(ph, stageFilter)
  }

  function ShownFacet(tab: string, patientFilter: Option<int>, stageFilter: Option<Stage>): Photo -> bool {
    (ph: Photo) => Shown(ph, tab, patientFilter, stageFilter)
  }

  lemma TabStep(photos: seq<Photo>, tab: string)
    ensures FilterIf(tab != AllTab, photos, TreatmentIs(tab)) == Filter(photos, TabFacet(tab))
  {
    if tab != AllTab {
      FilterSame(photos, TreatmentIs(tab), TabFacet(tab));
    } else {
      FilterAll(photos, TabFacet(tab));
    }
  }

  lemma PatientStep(photos: seq<Photo>, patientFilter: Option<int>)
    ensures FilterIf(patientFilter.Some?, photos, PatientIs(patientFilter)) == Filter(photos, PatientFacet(patientFilter))
  {
    if patientFilter.Some? {
      FilterSame(photos, PatientIs(patientFilter), PatientFacet(patientFilter));
    } else {
      FilterAll(photos, PatientFacet(patientFilter));
    }
  }

  lemma StageStep(photos: seq<Photo>, stageFilter: Option<Stage>)
    ensures FilterIf(stageFilter.Some?, photos, StageIs(if stageFilter.Some? then stageFilter.value else Before))
         == Filter(photos, StageFacet(stageFilter))
  {
    if stageFilter.Some? {
      FilterSame(photos, StageIs(stageFilter.value), StageFacet(stageFilter));
    } else {
      FilterAll(photos, StageFacet(stageFilter));
    }
  }

  /** Filtering step by step is one filter by the conjunction of the facets, keeping collection order. */
  lemma FilterPhotosConjunctive(photos: seq<Photo>, tab: string, patientFilter: Option<int>, stageFilter: Option<Stage>)
    ensures FilterPhotos(photos, tab, patientFilter, stageFilter)
         == Filter(photos, ShownFacet(tab, patientFilter, stageFilter))
  {
    var t, p, s := TabFacet(tab), PatientFacet(patientFilter), StageFacet(stageFilter);
    var byTab := FilterIf(tab != AllTab, photos, TreatmentIs(tab));
    var byPatient := FilterIf(patientFilter.Some?, byTab, PatientIs(patientFilter));
    TabStep(photos, tab);
    PatientStep(byTab, patientFilter);
    StageStep(byPatient, stageFilter);
    FilterFilter(photos, t, p);
    FilterFilter(photos, Both(t, p), s);
    FacetsCombine(photos, tab, patientFilter, stageFilter);
  }

  lemma FacetsCombine(photos: seq<Photo>, tab: string, patientFilter: Option<int>, stageFilter: Option<Stage>)
    ensures Filter(photos, Both(Both(TabFacet(tab), PatientFacet(patientFilter)), StageFacet(stageFilter)))
         == Filter(photos, ShownFacet(tab, patientFilter, stageFilter))
  {
    FilterSame(photos, Both(Both(TabFacet(tab), PatientFacet(patientFilter)), StageFacet(stageFilter)),
               ShownFacet(tab, patientFilter, stageFilter));
  }

  /** Character codes, compared lexicographically in place of `localeCompare`. */
  function Codes(s: string): (k: seq<int>)
    ensures |k| == |s|
  {
    seq(|s|, i requires 0 <= i < |s| => s[i] as int)
  }

  /** Each comparator of the sort menu as a sort key. */
  function PhotoKey(order: SortOrder): Photo -> seq<int> {
    match order
    case Newest => (ph: Photo) => [-ph.date]
    case Oldest => (ph: Photo) => [ph.date]
    case ByPatient => (ph: Photo) => Codes(ph.patientName)
    case ByStage => (ph: Photo) => [StageOrdinal(ph.stage)]
  }

  /** `localeCompare` on character codes: negative, zero or positive as `a` sorts before, with or after `b`. */
  function CodeCompare(a: string, b: string): int
    decreases |a|
  {
    if a == [] then (if b == [] then 0 else -1)
    else if b == [] then 1
    else if a[0] < b[0] then -1
    else if a[0] > b[0] then 1
    else CodeCompare(a[1..], b[1..])
  }

  /** The comparator each sort order hands to `Array.prototype.sort`. */
  function Comparator(order: SortOrder, x: Photo, y: Photo): int {
    match order
    case Newest => y.date - x.date
    case Oldest => x.date - y.date
    case ByPatient => CodeCompare(x.patientName, y.patientName)
    case ByStage => StageOrdinal(x.stage) - StageOrdinal(y.stage)
  }

  /** Comparing code sequences is comparing the strings. */
  lemma {:induction false} CodesCompare(a: string, b: string)
    ensures KeyBelow(Codes(a), Codes(b)) <==> CodeCompare(a, b) < 0
    ensures Codes(a) == Codes(b) <==> CodeCompare(a, b) == 0
    decreases |a|
  {
    if a != [] && b != [] {
      assert Codes(a)[1..] == Codes(a[1..]);
      assert Codes(b)[1..] == Codes(b[1..]);
      CodesCompare(a[1..], b[1..]);
      if a[0] == b[0] && CodeCompare(a[1..], b[1..]) == 0 {
        assert a == [a[0]] + a[1..] && b == [b[0]] + b[1..];
      }
      if Codes(a) == Codes(b) {
        assert Codes(a)[0] == Codes(b)[0];
      }
    } else if a != [] {
      assert Codes(a)[0] == a[0] as int;
    } else if b != [] {
      assert Codes(b)[0] == b[0] as int;
    }
  }

  /**
   * Each sort key orders photos as the source's comparator does: one photo
   * sorts strictly before another exactly when the comparator is negative,
   * and they tie exactly when it is zero.
   */
  lemma PhotoKeyFollowsComparator(order: SortOrder, x: Photo, y: Photo)
    ensures KeyBelow(PhotoKey(order)(x), PhotoKey(order)(y)) <==> Comparator(order, x, y) < 0
    ensures PhotoKey(order)(x) == PhotoKey(order)(y) <==> Comparator(order, x, y) == 0
  {
    match order {
      case Newest => SingleKeyBelow(-x.date, -y.date);
      case Oldest => SingleKeyBelow(x.date, y.date);
      case ByPatient => CodesCompare(x.patientName, y.patientName);
      case ByStage => SingleKeyBelow(StageOrdinal(x.stage), StageOrdinal(y.stage));
    }
  }

  /** `renderTreatmentGallery` before rendering: the filtered photos, stably sorted. */
  function GalleryView(photos: seq<Photo>, tab: string, patientFilter: Option<int>, stageFilter: Option<Stage>,
                       order: SortOrder): (r: seq<Photo>)
    ensures |r| == |FilterPhotos(photos, tab, patientFilter, stageFilter)|
  {
    SortByKey(FilterPhotos(photos, tab, patientFilter, stageFilter), PhotoKey(order))
  }

  /** The gallery shows exactly the photos passing every facet, each as often as it is stored. */
  lemma GalleryContents(photos: seq<Photo>, tab: string, patientFilter: Option<int>, stageFilter: Option<Stage>,
                        order: SortOrder)
    ensures multiset(GalleryView(photos, tab, patientFilter, stageFilter, order))
         == multiset(Filter(photos, ShownFacet(tab, patientFilter, stageFilter)))
  {
    FilterPhotosConjunctive(photos, tab, patientFilter, stageFilter);
    SortByKeyPermutes(FilterPhotos(photos, tab, patientFilter, stageFilter), PhotoKey(order));
  }

  /** Each sort order puts the gallery in the order its comparator asks for. */
  lemma GalleryOrdered(photos: seq<Photo>, tab: string, patientFilter: Option<int>, stageFilter: Option<Stage>,
                       order: SortOrder)
    ensures var r := GalleryView(photos, tab, patientFilter, stageFilter, order);
      forall i, j :: 0 <= i < j < |r| ==>
        && (order == Newest ==> r[i].date >= r[j].date)
        && (order == Oldest ==> r[i].date <= r[j].date)
        && (order == ByStage ==> StageOrdinal(r[i].stage) <= StageOrdinal(r[j].stage))
        && (order == ByPatient ==> !KeyBelow(Codes(r[j].patientName), Codes(r[i].patientName)))
  {
    var r := GalleryView(photos, tab, patientFilter, stageFilter, order);
    var key := PhotoKey(order);
    SortByKeySorted(FilterPhotos(photos, tab, patientFilter, stageFilter), key);
    forall i, j | 0 <= i < j < |r|
      ensures && (order == Newest ==> r[i].date >= r[j].date)
              && (order == Oldest ==> r[i].date <= r[j].date)
              && (order == ByStage ==> StageOrdinal(r[i].stage) <= StageOrdinal(r[j].stage))
              && (order == ByPatient ==> !KeyBelow(Codes(r[j].patientName), Codes(r[i].patientName)))
    {
      assert !KeyBelow(key(r[j]), key(r[i]));
      match order {
        case Newest => SingleKeyBelow(-r[j].date, -r[i].date);
        case Oldest => SingleKeyBelow(r[j].date, r[i].date);
        case ByStage => SingleKeyBelow(StageOrdinal(r[j].stage), StageOrdinal(r[i].stage));
        case ByPatient =>
      }
    }
  }

  /** Photos the chosen order ranks equal stay in collection order. */
  lemma GalleryStable(photos: seq<Photo>, tab: string, patientFilter: Option<int>, stageFilter: Option<Stage>,
                      order: SortOrder, k: seq<int>)
    ensures WithKey(GalleryView(photos, tab, patientFilter, stageFilter, order), PhotoKey(order), k)
         == WithKey(Filter(photos, ShownFacet(tab, patientFilter, stageFilter)), PhotoKey(order), k)
  {
    FilterPhotosConjunctive(photos, tab, patientFilter, stageFilter);
    SortByKeyStable(FilterPhotos(photos, tab, patientFilter, stageFilter), PhotoKey(order), k);
  }

  /** `getTreatmentPhotoCount`: every photo on the 'all' tab, otherwise those of that treatment. */
  function PhotoCount(photos: seq<Photo>, tab: string): (n: nat)
    ensures n <= |photos|
    ensures tab == AllTab ==> n == |photos|
  {
    if tab == AllTab then |photos| else Count(photos, TreatmentIs(tab))
  }

  /** The count on a tab is the number of photos the unfiltered gallery shows on that tab. */
  lemma PhotoCountMatchesGallery(photos: seq<Photo>, tab: string, order: SortOrder)
    ensures PhotoCount(photos, tab) == |GalleryView(photos, tab, None, None, order)|
  {
  }

  /** When every photo belongs to one of the three treatments, the three tab counts add up to the 'all' count. */
  lemma {:induction false} TabCountsAddUp(photos: seq<Photo>)
    requires forall ph :: ph in photos ==> ph.treatmentType in {"braces", "invisalign", "retainers"}
    ensures PhotoCount(photos, "braces") + PhotoCount(photos, "invisalign") + PhotoCount(photos, "retainers")
         == PhotoCount(photos, AllTab)
    decreases |photos|
  {
    if photos != [] {
      TabCountsAddUp(photos[1..]);
    }
  }
}
