/**
 The marker list of the trip map: the dataset records the filter state lets through,
 in dataset order, each drawn with the icon its category and visit status resolve to.
 */
module MapView {
  import opened Seqs
  import opened Keys
  import opened Selection
  import opened Filters
  import opened Icons

  /** A coordinate pair; the model only carries it from the record to its marker. */
  datatype LatLng = LatLng(lat: real, lng: real)

  /** One point of interest of the dataset. */
  datatype Location = Location(id: int, name: string, category: string, coords: LatLng, visited: bool)

  /** A record is shown when its category and its visit status are both selected. */
  predicate IsShown(st: FilterState, loc: Location) {
    loc.category in st.selectedCategories && StatusKey(loc.visited) in st.selectedStatus
  }

  /** The records that get a marker. */
  function Visible(dataset: seq<Location>, st: FilterState): (r: seq<Location>)
    ensures forall loc :: loc in r <==> loc in dataset && IsShown(st, loc)
    ensures forall loc :: multiset(r)[loc] == if IsShown(st, loc) then multiset(dataset)[loc] else 0
    ensures IsSubsequence(r, dataset)
  {
    FilterMultiplicity(dataset, loc => IsShown(st, loc));
    Filter(dataset, loc => IsShown(st, loc))
  }

  /** A pin: React key, position and icon of one visible record. */
  datatype Marker = Marker(key: int, position: LatLng, icon: IconDescriptor)

  function MarkerFor(loc: Location): Marker {
    Marker(loc.id, loc.coords, GetIcon(loc.category, loc.visited))
  }

  /** The markers drawn for the current state, one per visible record, in the same order. */
  function Markers(dataset: seq<Location>, st: FilterState): (r: seq<Marker>)
    ensures |r| == |Visible(dataset, st)|
    ensures forall i :: 0 <= i < |r| ==>
              var loc := Visible(dataset, st)[i];
              && r[i].key == loc.id
              && r[i].position == loc.coords
              && r[i].icon == GetIcon(loc.category, loc.visited)
  {
    var v := Visible(dataset, st);
    seq(|v|, i requires 0 <= i < |v| => MarkerFor(v[i]))
  }

  /** An empty selection list hides everything; that is a valid state, not an error. */
  lemma EmptySelectionShowsNothing(dataset: seq<Location>, st: FilterState)
    requires st.selectedCategories == [] || st.selectedStatus == []
    ensures Visible(dataset, st) == []
  {
    FilterDropsAll(dataset, loc => IsShown(st, loc));
  }

  /** With the initial selection every record of a known category is shown. */
  lemma InitialShowsKnownRecords(dataset: seq<Location>)
    requires forall loc :: loc in dataset ==> IsKnownCategory(loc.category)
    ensures Visible(dataset, Initial) == dataset
  {
    DefaultsSelectEveryKeyOnce();
    FilterKeepsAll(dataset, loc => IsShown(Initial, loc));
  }

  /** What is shown depends only on which keys are selected, not on order or repetition. */
  lemma VisibleDependsOnSelectedKeys(dataset: seq<Location>, st1: FilterState, st2: FilterState)
    requires Abstraction(st1) == Abstraction(st2)
    ensures Visible(dataset, st1) == Visible(dataset, st2)
  {
    FilterCongruent(dataset, loc => IsShown(st1, loc), loc => IsShown(st2, loc));
  }

  /** Clicking the same button twice shows the same markers as before. */
  lemma ClickTwiceRestoresVisible(dataset: seq<Location>, st: FilterState, e: Event)
    ensures Visible(dataset, Step(Step(st, e), e)) == Visible(dataset, st)
  {
    ClickTwiceRestoresSelection(st, e);
    VisibleDependsOnSelectedKeys(dataset, Step(Step(st, e), e), st);
  }

  /** Selecting one more key only adds markers; earlier ones keep their relative order. */
  lemma SelectingMoreShowsMore(dataset: seq<Location>, st: FilterState, e: Event)
    requires e.key !in (if e.CategoryClicked? then st.selectedCategories else st.selectedStatus)
    ensures IsSubsequence(Visible(dataset, st), Visible(dataset, Step(st, e)))
  {
    FilterMonotone(dataset, loc => IsShown(st, loc), loc => IsShown(Step(st, e), loc));
  }

  /** The visible list is built record by record: it distributes over concatenation. */
  lemma VisibleByRecord(a: seq<Location>, b: seq<Location>, st: FilterState, loc: Location)
    ensures Visible(a + b, st) == Visible(a, st) + Visible(b, st)
    ensures Visible([loc], st) == if IsShown(st, loc) then [loc] else []
  {
    FilterConcat(a, b, loc => IsShown(st, loc));
  }

  /** Toggling a category key that no record carries changes no marker. */
  lemma UnusedCategoryKeyChangesNothing(dataset: seq<Location>, st: FilterState, key: string)
    requires forall loc :: loc in dataset ==> loc.category != key
    ensures Visible(dataset, ToggleCategory(st, key)) == Visible(dataset, st)
  {
    FilterCongruent(dataset, loc => IsShown(ToggleCategory(st, key), loc), loc => IsShown(st, loc));
  }

  /** A dataset of known categories never yields a marker with an empty image path. */
  lemma KnownRecordsGetImages(dataset: seq<Location>, st: FilterState)
    requires forall loc :: loc in dataset ==> IsKnownCategory(loc.category)
    ensures forall m :: m in Markers(dataset, st) ==> m.icon.iconUrl != ""
  {
    var v := Visible(dataset, st);
    forall m | m in Markers(dataset, st) ensures m.icon.iconUrl != "" {
      var i :| 0 <= i < |Markers(dataset, st)| && Markers(dataset, st)[i] == m;
      assert v[i] in v;
    }
  }

  /**
   On the page itself no marker ever has an empty image path, whatever the dataset: the
   category list starts with the four known keys and the buttons only toggle those, so a
   record of any other category is never shown.
   */
  lemma ReachableMarkersHaveImages(dataset: seq<Location>, es: seq<Event>)
    requires forall i :: 0 <= i < |es| ==> IsButtonClick(es[i])
    ensures forall m :: m in Markers(dataset, Run(Initial, es)) ==> m.icon.iconUrl != ""
  {
    var st := Run(Initial, es);
    DefaultsSelectEveryKeyOnce();
    ButtonClicksKeepCategoriesKnown(Initial, es);
    var v := Visible(dataset, st);
    forall m | m in Markers(dataset, st) ensures m.icon.iconUrl != "" {
      var i :| 0 <= i < |Markers(dataset, st)| && Markers(dataset, st)[i] == m;
      assert v[i] in v;
    }
  }

  /**
   One visited Krishna site at (20, 80): shown with the visited Krishna icon at first,
   hidden once "visited" is deselected, shown again, unchanged, once it is reselected.
   */
  lemma KrishnaScenario()
    ensures
      var site := Location(1, "Krishna site", "krishna", LatLng(20.0, 80.0), true);
      var marker := Marker(1, LatLng(20.0, 80.0), GetIcon("krishna", true));
      var off := ToggleStatus(Initial, "visited");
      var on := ToggleStatus(off, "visited");
      && marker.icon.iconUrl == "/icons/krishna-visited.png"
      && Markers([site], Initial) == [marker]
      && Markers([site], off) == []
      && Markers([site], on) == [marker]
  {
    var site := Location(1, "Krishna site", "krishna", LatLng(20.0, 80.0), true);
    var off := ToggleStatus(Initial, "visited");
    var on := ToggleStatus(off, "visited");
    KrishnaConvention(true);
    assert IsShown(Initial, site);
    assert !IsShown(off, site);
    assert IsShown(on, site);
    assert Visible([site], Initial) == [site];
    assert Visible([site], off) == [];
    assert Visible([site], on) == [site];
  }
}
