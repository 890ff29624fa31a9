/**
 * The loaded timetable screen: its state, the values derived from it, the
 * reducer that turns user actions into state changes, and the two adapters
 * that connect it to the detail screen.
 */
module TimetableLoaded {
  import opened Wrappers
  import opened Foundation
  import opened Model
  import opened Sequences

  /** The list content's only action: an item was tapped. */
  datatype TimetableContentAction = Tap(item: AnyTimetableItem)

  /** `TimetableLoadedAction`. */
  datatype Action =
    | SelectedPicker(selectedType: SelectedType)
    | Content(contentAction: TimetableContentAction)
    | HideDetail
    | TapLink(link: string)
    | HideSheet

  /**
   * What a reducer hands back to the store: no work at all (`.none`), or work
   * that later feeds actions back in.
   */
  datatype Effect = NoEffect | Send(actions: seq<Action>)

  /** A snapshot of `TimetableLoadedState`: its four stored properties. */
  datatype StateValue = StateValue(
    timetableItems: seq<AnyTimetableItem>,
    selectedType: SelectedType,
    selectedTimetable: Option<AnyTimetableItem>,
    isSheetPresented: Option<Url>)
  {
    /**
     * `isShowingDetail`: the detail screen is pushed. It is true exactly when
     * an item is selected, which is exactly when the detail screen has a view
     * state to show.
     */
    predicate IsShowingDetail(): (r: bool)
      ensures r <==> selectedTimetable != None
      ensures r <==> DetailViewStateOf(this).Some?
    {
      selectedTimetable.Some?
    }

    /**
     * `isShowingSheet`: the web sheet is presented. It is true exactly when a
     * URL is held, so the sheet always has a URL to load.
     */
    predicate IsShowingSheet(): (r: bool)
      ensures r <==> isSheetPresented != None
    {
      isSheetPresented.Some?
    }

    /** `selectedTypeItems`: the items held on the selected conference day. */
    function SelectedTypeItems(calendar: Calendar, dateComponents: SelectedType -> DateComponents): (r: seq<AnyTimetableItem>)
      ensures IsSubsequence(r, timetableItems)
      ensures forall i :: 0 <= i < |r| ==> StartsOn(r[i], calendar, dateComponents(selectedType))
      ensures forall i :: 0 <= i < |timetableItems| && StartsOn(timetableItems[i], calendar, dateComponents(selectedType))
                ==> timetableItems[i] in r
    {
      FilterIsSubsequence(timetableItems, OnDay(calendar, dateComponents(selectedType)));
      Filter(timetableItems, OnDay(calendar, dateComponents(selectedType)))
    }
  }

  /**
   * The filter's test: the item's start, read in `calendar`, falls on the month
   * and day of `components`. An unset month or day matches nothing, and the
   * year and time of day play no part.
   */
  predicate StartsOn(item: AnyTimetableItem, calendar: Calendar, components: DateComponents): (r: bool)
    ensures r ==> components.month.Some? && components.day.Some?
    ensures r <==> components == DateComponents(Some(calendar.MonthOf(item.startsAt)), Some(calendar.DayOf(item.startsAt)))
  {
    components.month == Some(calendar.MonthOf(item.startsAt)) &&
    components.day == Some(calendar.DayOf(item.startsAt))
  }

  /** The filter's closure: `StartsOn` for a fixed calendar and day. */
  function OnDay(calendar: Calendar, components: DateComponents): (keep: AnyTimetableItem -> bool)
    ensures forall item :: keep(item) <==> StartsOn(item, calendar, components)
  {
    item => StartsOn(item, calendar, components)
  }

  /**
   * `timetableLoadedReducer` as a function of the old state: each action
   * overwrites at most one stored property and asks for no further work.
   * `URL(string:)!` traps on a string Foundation rejects, so a `tapLink` is
   * only defined for a valid link.
   */
  function Reduce(s: StateValue, action: Action, urls: UrlParser): (r: (StateValue, Effect))
    requires action.TapLink? ==> urls.isValid(action.link)
    ensures r.1 == NoEffect
    ensures r.0.timetableItems == s.timetableItems
    ensures !action.SelectedPicker? ==> r.0.selectedType == s.selectedType
    ensures !(action.Content? || action.HideDetail?) ==> r.0.selectedTimetable == s.selectedTimetable
    ensures !(action.TapLink? || action.HideSheet?) ==> r.0.isSheetPresented == s.isSheetPresented
  {
    match action
    case SelectedPicker(t) => (s.(selectedType := t), NoEffect)
    case Content(Tap(item)) => (s.(selectedTimetable := Some(item)), NoEffect)
    case HideDetail => (s.(selectedTimetable := None), NoEffect)
    case TapLink(link) => (s.(isSheetPresented := Some(urls.Parse(link).value)), NoEffect)
    case HideSheet => (s.(isSheetPresented := None), NoEffect)
  }

  /** `TimetableLoadedState`: the screen's state, updated in place by the reducer. */
  class TimetableLoadedState {
    var timetableItems: seq<AnyTimetableItem>
    var selectedType: SelectedType
    var selectedTimetable: Option<AnyTimetableItem>
    var isSheetPresented: Option<Url>

    /** The memberwise initializer with its defaults. */
    constructor (timetableItems: seq<AnyTimetableItem> := [], selectedType: SelectedType := Day1,
                 selectedTimetable: Option<AnyTimetableItem> := None, isSheetPresented: Option<Url> := None)
      ensures Value() == StateValue(timetableItems, selectedType, selectedTimetable, isSheetPresented)
    {
      this.timetableItems := timetableItems;
      this.selectedType := selectedType;
      this.selectedTimetable := selectedTimetable;
      this.isSheetPresented := isSheetPresented;
    }

    /** The current values of the four stored properties. */
    function Value(): StateValue
      reads this
    {
      StateValue(timetableItems, selectedType, selectedTimetable, isSheetPresented)
    }
  }

  /**
   * `timetableLoadedReducer`: updates `state` in place for `action` and
   * returns the effect to run.
   */
  method TimetableLoadedReducer(state: TimetableLoadedState, action: Action, urls: UrlParser) returns (effect: Effect)
    requires action.TapLink? ==> urls.isValid(action.link)
    modifies state
    ensures (state.Value(), effect) == Reduce(old(state.Value()), action, urls)
  {
    match action {
      case SelectedPicker(t) =>
        state.selectedType := t;
        return NoEffect;
      case Content(Tap(item)) =>
        state.selectedTimetable := Some(item);
        return NoEffect;
      case HideDetail =>
        state.selectedTimetable := None;
        return NoEffect;
      case TapLink(link) =>
        state.isSheetPresented := Some(urls.Parse(link).value);
        return NoEffect;
      case HideSheet =>
        state.isSheetPresented := None;
        return NoEffect;
    }
  }

  /** `TimetableDetailScreen.ViewState`: the item the detail screen shows. */
  datatype DetailViewState = DetailViewState(timetable: AnyTimetableItem)

  /** `TimetableDetailScreen.ViewAction`: the detail screen's only action. */
  datatype DetailViewAction = DetailTapLink(link: string)

  /** `TimetableDetailScreen.ViewState.init?(state:)`: present only while an item is selected. */
  function DetailViewStateOf(s: StateValue): (r: Option<DetailViewState>)
    ensures r.Some? <==> s.selectedTimetable != None
    ensures r.Some? ==> Some(r.value.timetable) == s.selectedTimetable
  {
    match s.selectedTimetable
    case None => None
    case Some(item) => Some(DetailViewState(item))
  }

  /** `TimetableLoadedAction.init(action:)`: the detail screen's link tap, forwarded. */
  function ActionOf(a: DetailViewAction): (r: Action)
    ensures r.TapLink? && r.link == a.link
  {
    match a
    case DetailTapLink(link) => TapLink(link)
  }
}
