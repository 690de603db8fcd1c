# Filter builder: a verified model of the filter-list state machine

This project models the core of a React filter-builder widget in Dafny. The
user builds a list of filters. Each filter is a column, an operator and a
typed value, and the widget reports the complete filters to a host
application on every change.

The model covers these parts:

- **Data model** (`types.dfy`): `ColumnType` (STRING, NUMBER, DATE),
  `FilterOperator` (EQUALS, NOT_EQUALS, GREATER_THAN, LESS_THAN), `Column`,
  the `Filter` record and `ViewResult`. `Filter` has a required `id` and
  optional `column`, `operator` and `value`. A filled filter is one whose
  three optional fields are all present. An empty filter is one with no
  column. A value is a string, a JavaScript number (NaN or a numeric value)
  or a `Date` (a time value or the Invalid Date).
- **Reducer** (`filter_view.dfy`), with pure and imperative forms:
  - The pure spec functions are `AddOrUpdate`, `Remove`,
    `FilterViewReducer` and `InitFilterView`.
  - The imperative methods are `FindIndex` (a search loop), `AddOrUpdateFilter`
    and `DeleteFilter`. They copy, search, then push, assign or splice, and
    each is proved equal to its spec function.
  - Lemmas state identity-based targeting, position preservation, the
    empty-filter guarantee, id uniqueness under a fresh-id oracle, and that
    "exactly one empty filter" is kept by every action a pill can dispatch.
- **Widget** (`filter_builder_view.dfy`): the projection `ParseFilterView`.
  It is proved to be exactly the valid subsequence and to be idempotent. The
  widget class holds the reducer state and the log of results emitted to the
  host. Its invariant is that the host's last result is the projection of the
  current state.
- **Pill** (`filter_pill.dfy`):
  - the record updaters;
  - the cascading reset when a column is chosen on an empty row;
  - the three-way CSS state;
  - the controls offered only once a column is chosen;
  - the column and operator option lists;
  - a pill class whose `onChange` receives only complete filters.
- **Typed input** (`typed_input.dfy`): dispatch by column type, and the
  initial draft, commit rule and default display of each sub-input. Each
  sub-input calls `onChange` once at mount, according to its rule. A
  debounce event delivers the draft. The draft is committed only when it
  differs from the value last delivered, using `Object.is`, so every date
  parse counts as new.
- **Typeahead** (`autocomplete_input.dfy`): the case-insensitive option
  filter and the initial selection. A picker class models the `onChange`,
  click, Enter, focus and focus-out handlers and the 15-entry display cap.
- `scenario.dfy` is a client of these contracts. A user picks the column
  "name" on the initial empty pill and types "Alice". The host first sees no
  filters, then only the completed filter. Two more walk-throughs show that
  retyping the last debounced text commits nothing new, and that choosing a
  NUMBER column completes the row at once with the value 0.

Some behaviour one might expect is not in the code, and the model follows
the code:

- **Empty filters.** The reducer does not stop an update from adding a
  second empty filter. `UpdateWithEmptyDataMayDuplicate` exhibits one.
  Only an update carrying an empty filter can break "exactly one empty
  filter". Every delete keeps it, and so does every update whose filter has
  a column (`OneEmptyKept`). Pills send updates only for complete filters.
- **Delete of a missing id** returns the list untouched. The empty-filter
  step is not applied on that path.
- **Date commits.** The date input commits any `Date` instance, including
  the Invalid Date. Its default text is `toISOString()`, not a
  `YYYY-MM-DD` rendering. `toISOString()` throws on an Invalid Date, so once
  such a value is committed, the next render of the date input throws
  (`InvalidDateCommitsThenThrows`).
- **Seeding.** The widget always starts from the empty seed, not from
  initial filters supplied by the host.

## Model

| member | source | states |
|---|---|---|
| `Types.AllOperators` | src/FilterBuilderView/types.ts:28-33 | the operator keys are exactly the four operators, each once, in declaration order, with distinct names |
| `Types.IsEmptyFilter` | src/FilterBuilderView/components/FilterPill/FilterPill.tsx:21-23 | a filter is empty when it has no column |
| `FilterView.IsFilterValid` | src/FilterBuilderView/state/filterView.ts:41-48 | `isFilterValid`: the filter is defined and has a column, an operator and a value |
| `FilterView.HasEmptyFilter` | src/FilterBuilderView/state/filterView.ts:58-60 | `hasEmptyFilter`: some entry of the list has no column |
| `FilterView.ValidIffComplete` | src/FilterBuilderView/state/filterView.ts:41-48 | a filter is valid iff it is defined and its column, operator and value are all present; "" and 0 count as present |
| `FilterView.BuildEmptyFilter` | src/FilterBuilderView/state/filterView.ts:50-56 | only the fresh id is set, so the filter is empty and not valid |
| `FilterView.FirstIndexOfId` | src/FilterBuilderView/state/filterView.ts:64-66 | findIndex by id: the first index holding the id, or -1 exactly when no entry has it |
| `FilterView.FindIndex` | src/FilterBuilderView/state/filterView.ts:83-85 | the search loop returns the first index holding the id, or -1 |
| `FilterView.EnsureEmptyFilter` | src/FilterBuilderView/state/filterView.ts:73-76 | the result has an empty filter; the input is kept as a prefix; one fresh empty filter is appended exactly when the input had none |
| `FilterView.AddOrUpdate` | src/FilterBuilderView/state/filterView.ts:62-79 | after an update the list always has an empty filter |
| `FilterView.AddOrUpdateFilter` | src/FilterBuilderView/state/filterView.ts:62-79 | the copy / findIndex / push-or-assign / push-empty steps compute the update |
| `FilterView.UpdateExisting` | src/FilterBuilderView/state/filterView.ts:63-76 | for a matched id, the first match becomes the data and every other position is unchanged; a fresh empty filter is appended iff no other entry and not the data is empty |
| `FilterView.UpdateNew` | src/FilterBuilderView/state/filterView.ts:67-76 | for a new id, the result is the old list, then the data, then a fresh empty filter iff neither the list nor the data has an empty one |
| `FilterView.UpdateThenLookup` | src/FilterBuilderView/state/filterView.ts:62-79 | after an update, looking up the data's id finds the data itself |
| `FilterView.UpdateKeepsIdsUnique` | src/FilterBuilderView/state/filterView.ts:62-79 | with a fresh id, an update keeps ids unique; the ids are the old ones plus the data's id, plus at most the fresh id |
| `FilterView.Remove` | src/FilterBuilderView/state/filterView.ts:81-97 | a delete keeps an empty filter if there was one |
| `FilterView.DeleteFilter` | src/FilterBuilderView/state/filterView.ts:81-97 | the copy / findIndex / early-return / splice / push-empty steps compute the delete |
| `FilterView.DeleteMiss` | src/FilterBuilderView/state/filterView.ts:86-88 | deleting an absent id returns the list unchanged, with no empty filter appended |
| `FilterView.DeleteHit` | src/FilterBuilderView/state/filterView.ts:83-94 | deleting a present id removes exactly its first entry; the rest keep their order; an empty filter is then present, appended iff none remained |
| `FilterView.DeleteKeepsIdsUnique` | src/FilterBuilderView/state/filterView.ts:81-97 | with a fresh id, a delete keeps ids unique and the deleted id is gone |
| `FilterView.FilterViewReducer` | src/FilterBuilderView/state/filterView.ts:7-28 | the reducer keeps an empty filter if there was one, an update always leaves one, and any other action returns the state unchanged |
| `FilterView.AddsNoEmpty` | src/FilterBuilderView/state/filterView.ts:7-28 | the actions that bring no empty filter of their own: every action except an update whose data has no column |
| `FilterView.OneEmptyKept` | src/FilterBuilderView/state/filterView.ts:7-97 | from a list with exactly one empty filter, every delete, every update with a column, and the default branch leave exactly one |
| `FilterView.UpdateWithEmptyDataMayDuplicate` | src/FilterBuilderView/state/filterView.ts:62-79 | an update with a new empty filter leaves two empty filters: the code alone does not enforce "exactly one" |
| `FilterView.InitFilterView` | src/FilterBuilderView/state/filterView.ts:30-39 | init returns the seed unchanged if it has an empty filter, else the seed's list plus one fresh empty filter; either way an empty filter is present |
| `FilterView.InitIdempotent` | src/FilterBuilderView/state/filterView.ts:30-39 | initialising an initialised view changes nothing |
| `FilterBuilderView.ParseFilterView` | src/FilterBuilderView/FilterBuilderView.tsx:19-24 | every emitted filter is valid and from the state; every valid filter of the state is emitted |
| `FilterBuilderView.ParseIsValidSubsequence` | src/FilterBuilderView/FilterBuilderView.tsx:19-24 | the emitted list is an order-preserving subsequence holding all valid filters; any such list equals it |
| `FilterBuilderView.ParseIdempotent` | src/FilterBuilderView/FilterBuilderView.tsx:22 | projecting a projected view changes nothing |
| `FilterBuilderView.InitialEmission` | src/FilterBuilderView/FilterBuilderView.tsx:15-34 | the initial state is a single empty filter and its projection has no filters |
| `FilterBuilderView.Widget.constructor` | src/FilterBuilderView/FilterBuilderView.tsx:30-39 | the widget starts with one empty filter, and the host's first result has no filters |
| `FilterBuilderView.Widget.UpdateFilter` | src/FilterBuilderView/FilterBuilderView.tsx:36-42 | the new state is the reducer applied to `filter:update`; the host receives its projection; the invariant is kept; exactly one empty filter is kept for filters with a column |
| `FilterBuilderView.Widget.DeleteFilter` | src/FilterBuilderView/FilterBuilderView.tsx:36-45 | the new state is the reducer applied to `filter:delete`; the host receives its projection; the invariant is kept; exactly one empty filter is always kept |
| `FilterPill.OperatorLabel` | src/FilterBuilderView/components/FilterPill/FilterPill.tsx:14-19 | the display text of each operator |
| `FilterPill.SetColumn` | src/FilterBuilderView/components/FilterPill/FilterPill.tsx:48-65 | the column is set and the id kept; on an empty row the operator becomes EQUALS and the value is cleared; otherwise operator and value are unchanged |
| `FilterPill.SetOperator` | src/FilterBuilderView/components/FilterPill/FilterPill.tsx:67-75 | only the operator changes |
| `FilterPill.SetValue` | src/FilterBuilderView/components/FilterPill/FilterPill.tsx:77-84 | only the value changes |
| `FilterPill.SetColumnTwice` | src/FilterBuilderView/components/FilterPill/FilterPill.tsx:48-65 | choosing two columns in a row is the same as choosing the second only |
| `FilterPill.ColumnThenValueCompletes` | src/FilterBuilderView/components/FilterPill/FilterPill.tsx:48-84 | on an empty row a column alone never makes the filter valid; a column and then a value always does |
| `FilterPill.OperatorAndValueCommute` | src/FilterBuilderView/components/FilterPill/FilterPill.tsx:67-84 | setting operator and value in either order gives the same filter |
| `FilterPill.Emission` | src/FilterBuilderView/components/FilterPill/FilterPill.tsx:41-46 | the effect reports the state iff it is valid |
| `FilterPill.FilterClass` | src/FilterBuilderView/components/FilterPill/FilterPill.tsx:98-106 | "filter" iff no column; "filter-active" iff valid; "filter-active filter-invalid" iff started and invalid |
| `FilterPill.OfferedControls` | src/FilterBuilderView/components/FilterPill/FilterPill.tsx:108-135 | the delete button, the operator picker and the value input appear iff a column is chosen; the value input matches the column's type |
| `FilterPill.ColumnOptions` | src/FilterBuilderView/components/FilterPill/FilterPill.tsx:86-90 | one option per column, in order, with key and label set to the column's key |
| `FilterPill.OperatorOptions` | src/FilterBuilderView/components/FilterPill/FilterPill.tsx:92-96 | four options, one per operator in declaration order, with distinct values; each is keyed by the operator's name and labelled with its display text |
| `FilterPill.ColumnPreselected` | src/FilterBuilderView/components/FilterPill/FilterPill.tsx:115-119 | the column picker preselects the pill's column when it is in the schema, and nothing otherwise |
| `FilterPill.OperatorPreselected` | src/FilterBuilderView/components/FilterPill/FilterPill.tsx:120-127 | the operator picker preselects the pill's operator |
| `FilterPill.Pill.constructor` | src/FilterBuilderView/components/FilterPill/FilterPill.tsx:31-46 | the draft is the initial filter, which is reported on mount iff it is valid |
| `FilterPill.Pill.SelectColumn` | src/FilterBuilderView/components/FilterPill/FilterPill.tsx:48-65 | the draft becomes `SetColumn` of the old one and is reported iff valid; only valid filters with the pill's id are ever reported |
| `FilterPill.Pill.SelectOperator` | src/FilterBuilderView/components/FilterPill/FilterPill.tsx:67-75 | the draft becomes `SetOperator` of the old one and is reported iff valid |
| `FilterPill.Pill.CommitValue` | src/FilterBuilderView/components/FilterPill/FilterPill.tsx:77-84 | the draft becomes `SetValue` of the old one and is reported iff valid |
| `FilterPill.Pill.ClickDelete` | src/FilterBuilderView/components/FilterPill/FilterPill.tsx:110-114 | the button exists only once a column is chosen; clicking it reports the draft to `onDelete` |
| `TypedInput.Dispatch` | src/FilterBuilderView/components/TypedInput/TypedInput.tsx:21-50 | each of the three column types selects its own sub-input, one-for-one |
| `TypedInput.IsDate` | src/FilterBuilderView/components/TypedInput/TypedInput.tsx:88-90 | `isDate`: the value is defined and a `Date`, valid or not |
| `TypedInput.Commits` | src/FilterBuilderView/components/TypedInput/TypedInput.tsx:66-129 | whether the effect on the debounced value calls `onChange`: STRING when truthy, NUMBER always, DATE when a `Date` |
| `TypedInput.EditedValue` | src/FilterBuilderView/components/TypedInput/TypedInput.tsx:70-132 | what each change handler stores: the text, `Number(text)` or `new Date(text)` |
| `TypedInput.EffectCall` | src/FilterBuilderView/components/TypedInput/TypedInput.tsx:66-68 | the effect makes at most one call, exactly when the rule passes on a defined value, and passes that value |
| `TypedInput.NumberMountCommits` | src/FilterBuilderView/components/TypedInput/TypedInput.tsx:124-129 | at mount a number input reports its default if truthy, else 0 |
| `TypedInput.DefaultMountCommits` | src/FilterBuilderView/components/TypedInput/TypedInput.tsx:63-98 | at mount a string input reports a truthy default and a date input a `Date` default, and nothing otherwise |
| `TypedInput.InitialValue` | src/FilterBuilderView/components/TypedInput/TypedInput.tsx:124 | the number draft starts at the default if truthy, else 0; string and date drafts start at the default |
| `TypedInput.StringCommitRule` | src/FilterBuilderView/components/TypedInput/TypedInput.tsx:66-68 | a string commits iff it is non-empty; undefined never commits |
| `TypedInput.NumberCommitRule` | src/FilterBuilderView/components/TypedInput/TypedInput.tsx:127-129 | every number commits, 0 included |
| `TypedInput.DateCommitRule` | src/FilterBuilderView/components/TypedInput/TypedInput.tsx:88-98 | every Date commits, the Invalid Date included; undefined and non-Dates do not |
| `TypedInput.DefaultDisplay` | src/FilterBuilderView/components/TypedInput/TypedInput.tsx:77-108 | the string input shows "" iff its default is falsy, else the default; the date input shows "" iff its default is not a Date, else its ISO text, or throws for an Invalid Date |
| `TypedInput.InvalidDateCommitsThenThrows` | src/FilterBuilderView/components/TypedInput/TypedInput.tsx:96-108 | text that parses to an Invalid Date is committed, and rendering it as the default then throws |
| `TypedInput.Field.Pending` | src/FilterBuilderView/components/TypedInput/TypedInput.tsx:64-68 | the effect's dependency will change: the draft differs from the debounced value, or is a new `Date` object |
| `TypedInput.Field.constructor` | src/FilterBuilderView/components/TypedInput/TypedInput.tsx:21-50 | mounting picks the sub-input for the column type, starts its draft at `InitialValue`, and runs the effect once on it, by the sub-input's rule |
| `TypedInput.Field.OnChange` | src/FilterBuilderView/components/TypedInput/TypedInput.tsx:70-132 | a change sets the draft to the text, its number parse or its date parse, according to the sub-input; a date parse is a new object; nothing is committed |
| `TypedInput.Field.DebounceElapsed` | src/FilterBuilderView/components/TypedInput/TypedInput.tsx:64-129 | the hook delivers the draft; `onChange` is called only if the delivered value changed under `Object.is`, and then by the sub-input's rule |
| `AutocompleteInput.FilterOptions` | src/FilterBuilderView/components/AutocompleteInput/AutocompleteInput.tsx:48-57 | empty search gives all options; otherwise an option is kept iff its lower-cased label contains the lower-cased search; the kept options keep their original order, and every match is kept, duplicates included |
| `AutocompleteInput.FirstAvailableIsFirstMatch` | src/FilterBuilderView/components/AutocompleteInput/AutocompleteInput.tsx:48-57 | the first available option is the first option, in the original order, that the search matches |
| `AutocompleteInput.SearchIgnoresCase` | src/FilterBuilderView/components/AutocompleteInput/AutocompleteInput.tsx:53-55 | lower-casing the search text first does not change the options found |
| `AutocompleteInput.LabelFindsOption` | src/FilterBuilderView/components/AutocompleteInput/AutocompleteInput.tsx:88-94 | an option is always among those its own label finds |
| `AutocompleteInput.FindByValue` | src/FilterBuilderView/components/AutocompleteInput/AutocompleteInput.tsx:26-28 | the first option whose value is the default, or none exactly when no option has it |
| `AutocompleteInput.Picker.SelectedLabel` | src/FilterBuilderView/components/AutocompleteInput/AutocompleteInput.tsx:65 | the selected option's label, or "" when nothing is selected |
| `AutocompleteInput.Picker.VisibleOptions` | src/FilterBuilderView/components/AutocompleteInput/AutocompleteInput.tsx:123-126 | nothing while inactive; otherwise the first min(15, n) available options |
| `AutocompleteInput.Picker.constructor` | src/FilterBuilderView/components/AutocompleteInput/AutocompleteInput.tsx:25-58 | the initial selection is the first option with the default value; the text is its label or ""; the dropdown is closed; the available list matches the text |
| `AutocompleteInput.Picker.SetSearchInput` | src/FilterBuilderView/components/AutocompleteInput/AutocompleteInput.tsx:42-58 | changed non-empty text other than the selected label opens the dropdown; the available list follows the text |
| `AutocompleteInput.Picker.OnChange` | src/FilterBuilderView/components/AutocompleteInput/AutocompleteInput.tsx:38-40 | typing sets the text and refilters the options; the selection is unchanged |
| `AutocompleteInput.Picker.Select` | src/FilterBuilderView/components/AutocompleteInput/AutocompleteInput.tsx:88-94 | selecting sets the selection, reports its value, closes the dropdown and shows its label; the option stays available |
| `AutocompleteInput.Picker.ClickOption` | src/FilterBuilderView/components/AutocompleteInput/AutocompleteInput.tsx:126-128 | clicking a shown entry selects that entry, reports its value, closes the dropdown and shows its label |
| `AutocompleteInput.Picker.OnKeyPress` | src/FilterBuilderView/components/AutocompleteInput/AutocompleteInput.tsx:96-101 | Enter with available options selects the first, which is the first option the text matches, and shows its label; in every other case nothing changes |
| `AutocompleteInput.Picker.OnFocus` | src/FilterBuilderView/components/AutocompleteInput/AutocompleteInput.tsx:103-110 | focusing with non-empty text opens the dropdown; nothing else changes |
| `AutocompleteInput.Picker.FocusOut` | src/FilterBuilderView/components/AutocompleteInput/AutocompleteInput.tsx:60-72 | focus leaving the component closes the dropdown and resets the text to the selected label or ""; focus moving inside changes nothing |

## Left out

- Rendering and DOM wiring are not modelled. This covers JSX, refs, `useImperativeHandle`, `.focus()`, `.select()` and the registration of the `focusout` listener. Whether focus moved inside the picker (`containerRef.contains(relatedTarget)`) is a boolean parameter of `FocusOut`.
- The text in the picker's DOM input is not kept separately, because the code keeps it equal to `searchInput`.
- React scheduling is modelled simply. Each handler runs to completion, and then the effects it triggers run. Callbacks (`onChange`, `onSelect`, `onDelete`) are recorded as call logs on the objects, and the scenario wires a pill to the widget by hand.
- `useDebouncedValue` is not part of this model. Its timer becomes the `DebounceElapsed` event, which delivers the current draft.
- TypedInput.Field.constructor: the effect's call at mount is modelled, but the hook's first output is not visible. It is taken to be the initial draft.
- `Number(text)` and `new Date(text)` are not modelled. `InputEvent` carries the text together with both parse results.
- `toISOString()` is kept as a symbolic `Display` value. The text the controlled number input shows (`value?.toString() || ""`) is not modelled. Only its draft value is.
- Numbers are modelled as NaN or an exact real. Floating-point arithmetic, infinities and -0 are not modelled; the core only tests their truthiness and compares them with `Object.is`, here with -0 taken as 0.
- `crypto.randomUUID()` is the `freshId` parameter. It must not be among the current ids wherever id uniqueness is claimed.
- `toLowerCase` and `includes` are modelled on ASCII only. Unicode case mapping is not modelled.
- `options.find` compares with `===`, which for columns is reference equality. The model compares structurally. The two agree when the host's columns are distinct values.
- The picker's `options` are fixed at mount. A later change of the prop is not modelled, because the effect does not re-run for it.
- The `id` of a pill's key and the re-rendering of pills from the state are not modelled beyond `Pill.constructor`.
- `src/App.tsx` is a demo host that prints the result as JSON. It is not part of this model.
- A `YYYY-MM-DD` round trip after a date commit is not modelled. The code renders `toISOString()`, and `DefaultDisplay` states that.
