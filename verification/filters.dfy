/**
 The filter state of the trip map: the selected category keys and the selected status
 keys, created with every key selected and changed only by the two toggle handlers.
 */
module Filters {
  import opened Seqs
  import opened Keys
  import opened Selection

  datatype FilterState = FilterState(selectedCategories: seq<string>, selectedStatus: seq<string>)

  /** The state the page mounts with. */
  const Initial: FilterState := FilterState(DefaultCategories, DefaultStatuses)

  /** Clicking a category button. Keys are not validated, so any string can be selected. */
  function ToggleCategory(st: FilterState, key: string): (r: FilterState)
    ensures r.selectedStatus == st.selectedStatus
    ensures key in r.selectedCategories <==> key !in st.selectedCategories
    ensures forall x :: x != key ==> (x in r.selectedCategories <==> x in st.selectedCategories)
  {
    st.(selectedCategories := Toggle(st.selectedCategories, key))
  }

  /** Clicking a status button. Keys are not validated, so any string can be selected. */
  function ToggleStatus(st: FilterState, key: string): (r: FilterState)
    ensures r.selectedCategories == st.selectedCategories
    ensures key in r.selectedStatus <==> key !in st.selectedStatus
    ensures forall x :: x != key ==> (x in r.selectedStatus <==> x in st.selectedStatus)
  {
    st.(selectedStatus := Toggle(st.selectedStatus, key))
  }

  /** A click on one of the filter buttons. */
  datatype Event = CategoryClicked(key: string) | StatusClicked(key: string)

  function Step(st: FilterState, e: Event): FilterState {
    match e
    case CategoryClicked(k) => ToggleCategory(st, k)
    case StatusClicked(k) => ToggleStatus(st, k)
  }

  /** The state after a sequence of clicks, first click first. */
  function Run(st: FilterState, es: seq<Event>): FilterState
    decreases |es|
  {
    if es == [] then st else Run(Step(st, es[0]), es[1..])
  }

  /** Neither selection list holds a key twice. */
  predicate WellFormed(st: FilterState) {
    NoDuplicates(st.selectedCategories) && NoDuplicates(st.selectedStatus)
  }

  /** Every state reachable from the initial one is duplicate-free. */
  lemma {:induction false} RunKeepsWellFormed(st: FilterState, es: seq<Event>)
    requires WellFormed(st)
    ensures WellFormed(Run(st, es))
    decreases |es|
  {
    if es != [] {
      match es[0] {
        case CategoryClicked(k) => ToggleKeepsNoDuplicates(st.selectedCategories, k);
        case StatusClicked(k) => ToggleKeepsNoDuplicates(st.selectedStatus, k);
      }
      RunKeepsWellFormed(Step(st, es[0]), es[1..]);
    }
  }

  lemma ReachableStatesWellFormed(es: seq<Event>)
    ensures WellFormed(Run(Initial, es))
  {
    DefaultsSelectEveryKeyOnce();
    RunKeepsWellFormed(Initial, es);
  }

  /**
   A click the filter panel can produce: its category buttons carry the four category keys,
   its status buttons the two status keys.
   */
  predicate IsButtonClick(e: Event) {
    match e
    case CategoryClicked(k) => IsKnownCategory(k)
    case StatusClicked(k) => k == "visited" || k == "notVisited"
  }

  /** Clicks on the panel's buttons keep every selected category a known one. */
  lemma {:induction false} ButtonClicksKeepCategoriesKnown(st: FilterState, es: seq<Event>)
    requires forall k :: k in st.selectedCategories ==> IsKnownCategory(k)
    requires forall i :: 0 <= i < |es| ==> IsButtonClick(es[i])
    ensures forall k :: k in Run(st, es).selectedCategories ==> IsKnownCategory(k)
    decreases |es|
  {
    if es != [] {
      assert IsButtonClick(es[0]);
      var next := Step(st, es[0]);
      assert forall i :: 0 <= i < |es[1..]| ==> IsButtonClick(es[1..][i]) by {
        forall i | 0 <= i < |es[1..]| ensures IsButtonClick(es[1..][i]) {
          assert es[1..][i] == es[i + 1];
        }
      }
      ButtonClicksKeepCategoriesKnown(next, es[1..]);
    }
  }

  /** The selection as two key sets; a click flips the clicked key in one of them. */
  datatype KeySets = KeySets(categories: set<string>, statuses: set<string>)

  function Flip(s: set<string>, k: string): set<string> {
    if k in s then s - {k} else s + {k}
  }

  function AbstractStep(a: KeySets, e: Event): KeySets {
    match e
    case CategoryClicked(k) => a.(categories := Flip(a.categories, k))
    case StatusClicked(k) => a.(statuses := Flip(a.statuses, k))
  }

  function AbstractRun(a: KeySets, es: seq<Event>): KeySets
    decreases |es|
  {
    if es == [] then a else AbstractRun(AbstractStep(a, es[0]), es[1..])
  }

  /** The keys a list-based state selects. */
  function Abstraction(st: FilterState): (a: KeySets)
    ensures forall k :: k in a.categories <==> k in st.selectedCategories
    ensures forall k :: k in a.statuses <==> k in st.selectedStatus
  {
    KeySets(set k | k in st.selectedCategories, set k | k in st.selectedStatus)
  }

  /** One click on the lists does what one click on the sets does. */
  lemma StepRefinesAbstractStep(st: FilterState, e: Event)
    ensures Abstraction(Step(st, e)) == AbstractStep(Abstraction(st), e)
  {
  }

  /** Any sequence of clicks on the lists does what it does on the sets. */
  lemma {:induction false} RunRefinesAbstractRun(st: FilterState, es: seq<Event>)
    ensures Abstraction(Run(st, es)) == AbstractRun(Abstraction(st), es)
    decreases |es|
  {
    if es != [] {
      StepRefinesAbstractStep(st, es[0]);
      RunRefinesAbstractRun(Step(st, es[0]), es[1..]);
    }
  }

  /** Clicking the same button twice selects the same keys as before. */
  lemma ClickTwiceRestoresSelection(st: FilterState, e: Event)
    ensures Abstraction(Step(Step(st, e), e)) == Abstraction(st)
  {
    StepRefinesAbstractStep(st, e);
    StepRefinesAbstractStep(Step(st, e), e);
  }
}
