/**
 * What the loaded timetable screen guarantees, stated over the reducer's
 * specification and the derived values.
 */
module TimetableLoadedProperties {
  import opened Wrappers
  import opened Foundation
  import opened Model
  import opened Sequences
  import opened TimetableLoaded

  // ---------------------------------------------------------------- the day filter

  /**
   * The items shown are exactly the loaded items that start on the selected
   * day, and any order-preserving selection of such items is a selection from
   * the items shown: nothing that matches is dropped.
   */
  lemma {:induction false} SelectedTypeItemsIsLargestMatchingSelection(
    s: StateValue, calendar: Calendar, dateComponents: SelectedType -> DateComponents, sub: seq<AnyTimetableItem>)
    requires IsSubsequence(sub, s.timetableItems)
    requires forall i :: 0 <= i < |sub| ==> StartsOn(sub[i], calendar, dateComponents(s.selectedType))
    ensures IsSubsequence(sub, s.SelectedTypeItems(calendar, dateComponents))
  {
    FilterIsMaximal(sub, s.timetableItems, OnDay(calendar, dateComponents(s.selectedType)));
  }

  /**
   * Only the month and day of an item's start matter: two loaded items whose
   * starts fall on the same calendar month and day (in any year, at any time)
   * are either both shown or both hidden.
   */
  lemma OnlyMonthAndDayMatter(
    s: StateValue, calendar: Calendar, dateComponents: SelectedType -> DateComponents, a: AnyTimetableItem, b: AnyTimetableItem)
    requires a in s.timetableItems && b in s.timetableItems
    requires calendar.MonthOf(a.startsAt) == calendar.MonthOf(b.startsAt)
    requires calendar.DayOf(a.startsAt) == calendar.DayOf(b.startsAt)
    ensures a in s.SelectedTypeItems(calendar, dateComponents) <==> b in s.SelectedTypeItems(calendar, dateComponents)
  {
  }

  /**
   * A three-item example: two items on 10/19 and one on 10/20, with the three
   * conference days mapped to 10/19, 10/20 and 10/21. Day 1 shows the first
   * two in order, day 2 the third, day 3 nothing.
   */
  lemma ThreeDaysExample(
    calendar: Calendar, dateComponents: SelectedType -> DateComponents, a: AnyTimetableItem, b: AnyTimetableItem, c: AnyTimetableItem)
    requires calendar.MonthOf(a.startsAt) == 10 && calendar.DayOf(a.startsAt) == 19
    requires calendar.MonthOf(b.startsAt) == 10 && calendar.DayOf(b.startsAt) == 19
    requires calendar.MonthOf(c.startsAt) == 10 && calendar.DayOf(c.startsAt) == 20
    requires dateComponents(Day1) == DateComponents(Some(10), Some(19))
    requires dateComponents(Day2) == DateComponents(Some(10), Some(20))
    requires dateComponents(Day3) == DateComponents(Some(10), Some(21))
    ensures StateValue([a, b, c], Day1, None, None).SelectedTypeItems(calendar, dateComponents) == [a, b]
    ensures StateValue([a, b, c], Day2, None, None).SelectedTypeItems(calendar, dateComponents) == [c]
    ensures StateValue([a, b, c], Day3, None, None).SelectedTypeItems(calendar, dateComponents) == []
  {
    var items := [a, b, c];
    assert items[1..] == [b, c] && [b, c][1..] == [c] && [c][1..] == [];
    var day1, day2 := OnDay(calendar, dateComponents(Day1)), OnDay(calendar, dateComponents(Day2));
    assert Filter([c], day1) == [];
    assert Filter([b, c], day1) == [b];
    assert Filter(items, day1) == [a, b];
    assert Filter([c], day2) == [c];
    assert Filter([b, c], day2) == [c];
    assert Filter(items, day2) == [c];
  }

  // ---------------------------------------------------------------- the initial state

  /**
   * The default initializer's state: no items, day 1, nothing selected and no
   * sheet, so neither overlay shows and the list is empty.
   */
  lemma DefaultStateShowsNothing(calendar: Calendar, dateComponents: SelectedType -> DateComponents)
    ensures var d := StateValue([], Day1, None, None);
      !d.IsShowingDetail() && !d.IsShowingSheet() && d.SelectedTypeItems(calendar, dateComponents) == []
  {
  }

  // ---------------------------------------------------------------- the reducer, action by action

  /** `selectedPicker(t)` selects day `t` and changes nothing else; the list then shows day `t`'s items. */
  lemma SelectedPickerSelectsDay(
    s: StateValue, t: SelectedType, urls: UrlParser, calendar: Calendar, dateComponents: SelectedType -> DateComponents)
    ensures Reduce(s, SelectedPicker(t), urls).0 == s.(selectedType := t)
    ensures var shown := Reduce(s, SelectedPicker(t), urls).0.SelectedTypeItems(calendar, dateComponents);
      forall i :: 0 <= i < |s.timetableItems| ==>
        (s.timetableItems[i] in shown <==> StartsOn(s.timetableItems[i], calendar, dateComponents(t)))
  {
  }

  /** No action other than `selectedPicker` changes which items the list shows. */
  lemma OnlyPickerChangesShownItems(
    s: StateValue, action: Action, urls: UrlParser, calendar: Calendar, dateComponents: SelectedType -> DateComponents)
    requires action.TapLink? ==> urls.isValid(action.link)
    requires !action.SelectedPicker?
    ensures Reduce(s, action, urls).0.SelectedTypeItems(calendar, dateComponents) == s.SelectedTypeItems(calendar, dateComponents)
  {
  }

  /** `content(.tap(item))` selects `item`, which pushes the detail screen; nothing else changes. */
  lemma TapShowsDetail(s: StateValue, item: AnyTimetableItem, urls: UrlParser)
    ensures Reduce(s, Content(Tap(item)), urls).0 == s.(selectedTimetable := Some(item))
    ensures Reduce(s, Content(Tap(item)), urls).0.IsShowingDetail()
  {
  }

  /**
   * `hideDetail` clears the selection and changes nothing else; a second
   * `hideDetail` changes nothing, and neither does one with nothing selected.
   */
  lemma HideDetailIsIdempotent(s: StateValue, urls: UrlParser)
    ensures Reduce(s, HideDetail, urls).0 == s.(selectedTimetable := None)
    ensures !Reduce(s, HideDetail, urls).0.IsShowingDetail()
    ensures Reduce(Reduce(s, HideDetail, urls).0, HideDetail, urls).0 == Reduce(s, HideDetail, urls).0
    ensures !s.IsShowingDetail() ==> Reduce(s, HideDetail, urls).0 == s
  {
  }

  /** Tapping an item and then dismissing the detail screen restores the state when nothing was selected before. */
  lemma TapThenHideDetail(s: StateValue, item: AnyTimetableItem, urls: UrlParser)
    ensures var t := Reduce(Reduce(s, Content(Tap(item)), urls).0, HideDetail, urls).0;
      t == s.(selectedTimetable := None) && (!s.IsShowingDetail() ==> t == s)
  {
  }

  /**
   * `tapLink(link)` on a link Foundation accepts presents the sheet on the URL
   * made from that very string; nothing else changes.
   */
  lemma TapLinkShowsSheet(s: StateValue, link: string, urls: UrlParser)
    requires urls.isValid(link)
    ensures Reduce(s, TapLink(link), urls).0 == s.(isSheetPresented := Some(Url(link)))
    ensures Reduce(s, TapLink(link), urls).0.IsShowingSheet()
  {
  }

  /**
   * `hideSheet` dismisses the sheet and changes nothing else; a second
   * `hideSheet` changes nothing.
   */
  lemma HideSheetIsIdempotent(s: StateValue, urls: UrlParser)
    ensures Reduce(s, HideSheet, urls).0 == s.(isSheetPresented := None)
    ensures !Reduce(s, HideSheet, urls).0.IsShowingSheet()
    ensures Reduce(Reduce(s, HideSheet, urls).0, HideSheet, urls).0 == Reduce(s, HideSheet, urls).0
  {
  }

  /** The detail screen and the sheet are independent: each action touches at most one of them. */
  lemma OverlaysAreIndependent(s: StateValue, action: Action, urls: UrlParser)
    requires action.TapLink? ==> urls.isValid(action.link)
    ensures var t := Reduce(s, action, urls).0;
      t.IsShowingDetail() == s.IsShowingDetail() || t.IsShowingSheet() == s.IsShowingSheet()
  {
  }

  // ---------------------------------------------------------------- the detail screen adapters

  /**
   * The detail screen exists exactly while the list shows it as pushed, and
   * it shows the selected item; tapping an item gives it that item.
   */
  lemma DetailScreenFollowsSelection(s: StateValue, item: AnyTimetableItem, urls: UrlParser)
    ensures DetailViewStateOf(Reduce(s, Content(Tap(item)), urls).0) == Some(DetailViewState(item))
    ensures DetailViewStateOf(Reduce(s, HideDetail, urls).0) == None
  {
  }

  /**
   * A link tapped on the detail screen, forwarded to this reducer, presents
   * the sheet on that link and leaves the detail screen where it was.
   */
  lemma DetailLinkOpensSheet(s: StateValue, a: DetailViewAction, urls: UrlParser)
    requires urls.isValid(a.link)
    ensures Reduce(s, ActionOf(a), urls).0 == s.(isSheetPresented := Some(Url(a.link)))
    ensures DetailViewStateOf(Reduce(s, ActionOf(a), urls).0) == DetailViewStateOf(s)
  {
  }
}
