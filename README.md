# Timetable list screen: state and reducer

This project models the state container and reducer behind the timetable
screen of the DroidKaigi 2021 iOS conference app
(`ios/Sources/TimetableFeature/List/TimetableLoaded.swift`). The screen holds
the loaded schedule items, the conference day picked in a segmented control,
an optional selected item that pushes a detail screen, and an optional URL
that presents a web sheet. The list shows only the items that start on the
picked day. Five user actions change the state, and each one overwrites
exactly one stored property.

Modules:

- `Wrappers`: `Option`, for Swift's optionals.
- `Foundation`: the few Foundation types the screen uses (`Date`, `Calendar`,
  `DateComponents`, `URL`). Calendar arithmetic and URL parsing are foreign
  code. Each appears as a function the caller supplies, and nothing else is
  assumed about it.
- `Model`: `AnyTimetableItem` (session or special entry) and `SelectedType`
  (day 1, 2 or 3).
- `Sequences`: Swift's `Array.filter`, with order preservation and maximality
  proved.
- `TimetableLoaded`: the state, with a snapshot datatype `StateValue` for the
  derived values and a class `TimetableLoadedState` whose fields the reducer
  updates in place. It also holds the actions and effects, the reducer as a
  pure specification `Reduce` and as the in-place method
  `TimetableLoadedReducer`, and the two detail-screen adapters.
- `TimetableLoadedProperties`: lemmas about the filter, the reducer and the
  adapters.

The external inputs are modelled as parameters:

- `Calendar(identifier: .japanese)` is a `Calendar` value whose `component`
  function is the calendar's month and day extraction.
- `SelectedType.dateComponents` is defined outside this file. It is a
  parameter `dateComponents: SelectedType -> DateComponents`. Its month and
  day may be unset. In Swift, comparing an unset `Int?` with an `Int` is
  false, so an unset field matches no item.
- `URL(string:)` is a `UrlParser` with an `isValid` predicate. A valid string
  yields a URL that keeps that string.

`URL(string: link)!` in the `tapLink` case traps when the string does not
parse. The model makes validity of the link a precondition of that case, in
`Reduce` and in `TimetableLoadedReducer`.

## Model

| member | source | states |
|---|---|---|
| `Sequences.Filter` | ios/Sources/TimetableFeature/List/TimetableLoaded.swift:24-30 | The result is no longer than the input. It holds exactly the input elements that satisfy the closure. It is empty iff no element of the input satisfies it. |
| `Sequences.FilterIsSubsequence` | ios/Sources/TimetableFeature/List/TimetableLoaded.swift:24-30 | The filtered array keeps the original order: it is a subsequence of the input. |
| `Sequences.FilterIsMaximal` | ios/Sources/TimetableFeature/List/TimetableLoaded.swift:24-30 | Any order-preserving selection of matching elements is a subsequence of the filtered array, so no matching element is dropped. |
| `Sequences.FilterUnique` | ios/Sources/TimetableFeature/List/TimetableLoaded.swift:24-30 | The filtered array is the only order-preserving selection of matching elements that contains the filtered array. |
| `TimetableLoaded.StateValue.SelectedTypeItems` | ios/Sources/TimetableFeature/List/TimetableLoaded.swift:21-31 | `selectedTypeItems` is a subsequence of `timetableItems`. Every item in it starts on the month and day of the selected type's date components. Every loaded item that does is in it. |
| `TimetableLoadedProperties.SelectedTypeItemsIsLargestMatchingSelection` | ios/Sources/TimetableFeature/List/TimetableLoaded.swift:21-31 | Every order-preserving selection of loaded items on the selected day is a selection from `selectedTypeItems`. |
| `TimetableLoadedProperties.OnlyMonthAndDayMatter` | ios/Sources/TimetableFeature/List/TimetableLoaded.swift:22-29 | Two loaded items whose starts share a calendar month and day are both shown or both hidden. Year and time of day do not matter. |
| `TimetableLoaded.StartsOn` | ios/Sources/TimetableFeature/List/TimetableLoaded.swift:25-30 | An item matches only when the components' month and day are both set. It matches exactly when the components equal the month and day of the item's start in the calendar. An unset month or day matches no item. |
| `TimetableLoaded.OnDay` | ios/Sources/TimetableFeature/List/TimetableLoaded.swift:25-30 | The filter's closure accepts exactly the items that `StartsOn` the given components. |
| `TimetableLoaded.StateValue.IsShowingDetail` | ios/Sources/TimetableFeature/List/TimetableLoaded.swift:13-15 | `isShowingDetail` is true exactly when an item is selected, which is exactly when the detail screen has a view state. |
| `TimetableLoaded.StateValue.IsShowingSheet` | ios/Sources/TimetableFeature/List/TimetableLoaded.swift:17-19 | `isShowingSheet` is true exactly when a sheet URL is held. |
| `TimetableLoadedProperties.ThreeDaysExample` | ios/Sources/TimetableFeature/List/TimetableLoaded.swift:21-31 | A three-item example: with items on 10/19, 10/19 and 10/20 and days mapped to 10/19, 10/20 and 10/21, day 1 shows the first two in order, day 2 the third and day 3 nothing. |
| `TimetableLoaded.Reduce` | ios/Sources/TimetableFeature/List/TimetableLoaded.swift:58-76 | Every action returns no effect and leaves `timetableItems` alone. Each stored property changes only under the actions that target it. `tapLink` requires a link that parses. |
| `TimetableLoaded.TimetableLoadedReducer` | ios/Sources/TimetableFeature/List/TimetableLoaded.swift:58-76 | The in-place reducer leaves the state equal to `Reduce` of the old state and returns `Reduce`'s effect, which is none. |
| `TimetableLoaded.TimetableLoadedState.constructor` | ios/Sources/TimetableFeature/List/TimetableLoaded.swift:33-43 | The initializer stores its four arguments, which default to no items, day 1, no selection and no sheet. |
| `TimetableLoadedProperties.DefaultStateShowsNothing` | ios/Sources/TimetableFeature/List/TimetableLoaded.swift:13-43 | The default state shows neither the detail screen nor the sheet, and its list is empty. |
| `TimetableLoadedProperties.SelectedPickerSelectsDay` | ios/Sources/TimetableFeature/List/TimetableLoaded.swift:60-62 | `selectedPicker(t)` sets `selectedType` to `t` and changes nothing else. The list then shows exactly the loaded items on day `t`. |
| `TimetableLoadedProperties.OnlyPickerChangesShownItems` | ios/Sources/TimetableFeature/List/TimetableLoaded.swift:58-76 | No action other than `selectedPicker` changes `selectedTypeItems`. |
| `TimetableLoadedProperties.TapShowsDetail` | ios/Sources/TimetableFeature/List/TimetableLoaded.swift:63-65 | `content(.tap(item))` selects `item`, so `isShowingDetail` holds. Nothing else changes. |
| `TimetableLoadedProperties.HideDetailIsIdempotent` | ios/Sources/TimetableFeature/List/TimetableLoaded.swift:66-68 | `hideDetail` clears the selection and nothing else, so `isShowingDetail` is false. Applying it twice equals applying it once. With nothing selected it changes nothing. |
| `TimetableLoadedProperties.TapThenHideDetail` | ios/Sources/TimetableFeature/List/TimetableLoaded.swift:63-68 | Tap followed by `hideDetail` clears the selection and leaves the other fields as they were. From a state with no selection, it restores that state. |
| `TimetableLoadedProperties.TapLinkShowsSheet` | ios/Sources/TimetableFeature/List/TimetableLoaded.swift:69-71 | `tapLink(link)` with a valid link presents the sheet on the URL made from `link`, so `isShowingSheet` holds. Nothing else changes. |
| `TimetableLoadedProperties.HideSheetIsIdempotent` | ios/Sources/TimetableFeature/List/TimetableLoaded.swift:72-74 | `hideSheet` clears the sheet URL and nothing else, so `isShowingSheet` is false. Applying it twice equals applying it once. |
| `TimetableLoadedProperties.OverlaysAreIndependent` | ios/Sources/TimetableFeature/List/TimetableLoaded.swift:13-19 | No action changes both `isShowingDetail` and `isShowingSheet`. |
| `Foundation.UrlParser.Parse` | ios/Sources/TimetableFeature/List/TimetableLoaded.swift:70 | `URL(string:)` is non-nil exactly for valid strings. The URL it gives keeps the string. |
| `TimetableLoaded.DetailViewStateOf` | ios/Sources/TimetableFeature/List/TimetableLoaded.swift:172-177 | The detail view state is present iff an item is selected. When present it carries the selected item. |
| `TimetableLoadedProperties.DetailScreenFollowsSelection` | ios/Sources/TimetableFeature/List/TimetableLoaded.swift:172-177 | After tapping an item, the detail view state carries that item. After `hideDetail` it is absent. |
| `TimetableLoaded.ActionOf` | ios/Sources/TimetableFeature/List/TimetableLoaded.swift:179-186 | The detail screen's `tapLink(link)` becomes this reducer's `tapLink` with the same link. |
| `TimetableLoadedProperties.DetailLinkOpensSheet` | ios/Sources/TimetableFeature/List/TimetableLoaded.swift:179-186 | A link tapped on the detail screen and forwarded here presents the sheet on that link. The detail screen is left as it was. |

## Left out

- The SwiftUI view (`TimetableLoaded.body`): navigation view, picker, sheet and `IfLetStore` wiring, and store scoping. This is UI composition. Its only logic is reading the derived values and sending the actions modelled here.
- The `UISegmentedControl.appearance()` styling in the view's initializer. It is a global UIKit presentation side effect.
- Japanese-calendar date arithmetic and the concrete dates behind `SelectedType.dateComponents`. Both are foreign computations and are supplied as parameters.
- The grammar that `URL(string:)` accepts. It is foreign and is supplied as the `isValid` predicate. A URL is modelled by the string it was made from.
- The localized day titles and the DEBUG preview data. These are localization and preview scaffolding.
- `AnyTimetableItem` fields other than an identifier and the start date. The screen reads no other field.
- `TimetableLoaded.Effect`: a simplified stand-in for the Composable Architecture's `Effect`. It only distinguishes "no effect" from "effect that sends actions".
- `TimetableLoadedEnvironment`: it has no members, so the reducer takes no environment.
- `TimetableLoaded.Reduce`: the trap of `URL(string: link)!` on an invalid link is a precondition, so the crash itself is not modelled as a state.
- Purity of the reducer: Dafny functions are deterministic by construction, so two calls with the same state and action agree. There is no separate statement of this.
