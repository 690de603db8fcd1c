/** The typeahead picker used for both the column and the operator of a
    pill: search text, the options it matches, the selected option and
    whether the dropdown is open. */
module AutocompleteInput {
  import opened Wrappers
  import Seqs

  /** `Option<T>` of the source: one entry of the dropdown (`labelText` is its `label`). */
  datatype SelectOption<T> = SelectOption(key: string, labelText: string, value: T)

  /** The dropdown never lists more than this many entries. */
  const DisplayCap: nat := 15

  /** `toLowerCase` restricted to ASCII letters. */
  function LowerChar(c: char): char
  {
    if 'A' <= c <= 'Z' then (c as int + 32) as char else c
  }

  function Lower(s: string): (r: string)
    ensures |r| == |s|
  {
    seq(|s|, i requires 0 <= i < |s| => LowerChar(s[i]))
  }

  /** `sub` occurs in `text` starting at index `i`. */
  predicate OccursAt(text: string, sub: string, i: nat)
  {
    i + |sub| <= |text| && text[i..i + |sub|] == sub
  }

  /** `text.includes(sub)`. */
  predicate Contains(text: string, sub: string)
  {
    exists i: nat | i <= |text| :: OccursAt(text, sub, i)
  }

  /** `option.label.toLowerCase().includes(search.toLowerCase())`. */
  predicate Matches<T>(search: string, option: SelectOption<T>)
  {
    Contains(Lower(option.labelText), Lower(search))
  }

  /** The options the effect on `searchInput` makes available: all of them
      for empty search text, otherwise those whose label contains the search
      text regardless of case, in their original order. */
  function FilterOptions<T>(options: seq<SelectOption<T>>, search: string): (r: seq<SelectOption<T>>)
    ensures |search| == 0 ==> r == options
    ensures forall i :: 0 <= i < |r| ==> r[i] in options && (|search| == 0 || Matches(search, r[i]))
    ensures forall i :: 0 <= i < |options| && (|search| == 0 || Matches(search, options[i])) ==> options[i] in r
    ensures Seqs.IsSubsequence(r, options)
    ensures |search| > 0 ==> |r| == Seqs.Count(options, o => Matches(search, o))
  {
    if |search| == 0 then
      Seqs.SubsequenceRefl(options);
      options
    else
      Seqs.FilterSeqIsSubsequence(options, o => Matches(search, o));
      Seqs.FilterSeqLength(options, o => Matches(search, o));
      Seqs.FilterSeq(options, o => Matches(search, o))
  }

  /** The first available option, which Enter selects, is the first option
      in the original order that the search text matches. */
  lemma FirstAvailableIsFirstMatch<T>(options: seq<SelectOption<T>>, search: string)
    requires |FilterOptions(options, search)| > 0
    ensures exists k :: 0 <= k < |options| && FilterOptions(options, search)[0] == options[k]
              && (|search| == 0 || Matches(search, options[k]))
              && forall j :: 0 <= j < k ==> |search| > 0 && !Matches(search, options[j])
  {
    if |search| == 0 {
      assert FilterOptions(options, search)[0] == options[0];
    } else {
      var k := Seqs.FilterSeqHead(options, o => Matches(search, o));
      assert FilterOptions(options, search)[0] == options[k];
    }
  }

  /** `options.find(option => option.value === defaultValue)`.  Option
      values are never `undefined`, so an absent default finds nothing. */
  function FindByValue<T(==)>(options: seq<SelectOption<T>>, defaultValue: Option<T>): (r: Option<SelectOption<T>>)
    ensures r.Some? ==> r.value in options && defaultValue == Some(r.value.value)
    ensures r.Some? ==> exists k :: 0 <= k < |options| && options[k] == r.value
                          && forall j :: 0 <= j < k ==> Some(options[j].value) != defaultValue
    ensures r.None? <==> forall j :: 0 <= j < |options| ==> Some(options[j].value) != defaultValue
  {
    if |options| == 0 then None
    else if Some(options[0].value) == defaultValue then Some(options[0])
    else
      var r := FindByValue(options[1..], defaultValue);
      assert r.Some? ==> exists k :: 0 <= k < |options[1..]| && options[1..][k] == r.value
                          && (forall j :: 0 <= j < k ==> Some(options[1..][j].value) != defaultValue);
      if r.Some? then
        var k :| 0 <= k < |options[1..]| && options[1..][k] == r.value
                 && (forall j :: 0 <= j < k ==> Some(options[1..][j].value) != defaultValue);
        assert options[k + 1] == r.value;
        r
      else r
  }

  /** The search is case-insensitive: lower-casing the search text first
      makes no difference. */
  lemma {:induction false} SearchIgnoresCase<T>(options: seq<SelectOption<T>>, search: string)
    ensures FilterOptions(options, Lower(search)) == FilterOptions(options, search)
  {
    assert Lower(Lower(search)) == Lower(search);
    if |search| > 0 {
      Seqs.FilterSeqCongruent(options, o => Matches(Lower(search), o), o => Matches(search, o));
    }
  }

  /** An option is always among those its own label makes available, so a
      selection never hides the selected option. */
  lemma LabelFindsOption<T>(options: seq<SelectOption<T>>, option: SelectOption<T>)
    requires option in options
    ensures option in FilterOptions(options, option.labelText)
  {
    var l := Lower(option.labelText);
    assert l[0..|l|] == l;
    assert OccursAt(l, l, 0);
    assert Matches(option.labelText, option);
    var k :| 0 <= k < |options| && options[k] == option;
  }

  /** The `AutocompleteInput` component's state cells.  `selections` records
      the calls of `onSelect`, oldest first.  The text in the DOM input is
      always `searchInput`, so it is not kept separately. */
  class Picker<T(==)> {
    const options: seq<SelectOption<T>>
    var active: bool
    var selectedOption: Option<SelectOption<T>>
    var availableOptions: seq<SelectOption<T>>
    var searchInput: string
    var selections: seq<T>

    /** The effect on `searchInput` has always caught up with the text, and
        the selection is one of the options. */
    ghost predicate Valid()
      reads this
    {
      && availableOptions == FilterOptions(options, searchInput)
      && (selectedOption.Some? ==> selectedOption.value in options)
    }

    /** `selectedOption?.label || ""`. */
    function SelectedLabel(): string
      reads this
    {
      if selectedOption.Some? then selectedOption.value.labelText else ""
    }

    /** The entries shown: none while inactive, otherwise the first
        `DisplayCap` available options. */
    function VisibleOptions(): (r: seq<SelectOption<T>>)
      reads this
      ensures |r| <= DisplayCap && |r| <= |availableOptions|
      ensures r == availableOptions[..|r|]
      ensures !active ==> r == []
      ensures active ==> |r| == if |availableOptions| < DisplayCap then |availableOptions| else DisplayCap
    {
      if !active then []
      else if |availableOptions| <= DisplayCap then availableOptions
      else availableOptions[..DisplayCap]
    }

    /** Mounting: the first option whose value is the default is selected, the
        search text is its label, and the effect's first run fills the list. */
    constructor (options: seq<SelectOption<T>>, defaultValue: Option<T>)
      ensures Valid()
      ensures this.options == options
      ensures selectedOption == FindByValue(options, defaultValue)
      ensures searchInput == SelectedLabel()
      ensures !active && selections == []
    {
      this.options := options;
      var selected := FindByValue(options, defaultValue);
      var search := if selected.Some? then selected.value.labelText else "";
      selectedOption := selected;
      searchInput := search;
      active := false;
      availableOptions := FilterOptions(options, search);
      selections := [];
    }

    /** `setSearchInput(text)` followed by the effect on `searchInput`, which
        runs only when the text actually changed: non-empty text other than
        the selected label opens the dropdown, and the list is refiltered. */
    method SetSearchInput(text: string)
      requires Valid()
      modifies this
      ensures Valid()
      ensures searchInput == text
      ensures active == (old(active) || (text != old(searchInput) && |text| > 0 && text != SelectedLabel()))
      ensures selectedOption == old(selectedOption) && selections == old(selections)
    {
      if text != searchInput {
        searchInput := text;
        if |text| > 0 && (selectedOption.None? || selectedOption.value.labelText != text) {
          active := true;
        }
        availableOptions := FilterOptions(options, text);
      }
    }

    /** `onChange`: the user edited the text. */
    method OnChange(text: string)
      requires Valid()
      modifies this
      ensures Valid()
      ensures searchInput == text && availableOptions == FilterOptions(options, text)
      ensures active == (old(active) || (text != old(searchInput) && |text| > 0 && text != SelectedLabel()))
      ensures selectedOption == old(selectedOption) && selections == old(selections)
    {
      SetSearchInput(text);
    }

    /** `onClick(option)()`: select the option, report its value, close the
        dropdown and show its label. */
    method Select(option: SelectOption<T>)
      requires Valid() && option in options
      modifies this
      ensures Valid()
      ensures selectedOption == Some(option)
      ensures selections == old(selections) + [option.value]
      ensures !active
      ensures searchInput == option.labelText
      ensures option in availableOptions
    {
      selectedOption := Some(option);
      selections := selections + [option.value];
      active := false;
      SetSearchInput(option.labelText);
      LabelFindsOption(options, option);
    }

    /** A click on the `index`-th entry of the dropdown. */
    method ClickOption(index: nat)
      requires Valid() && index < |VisibleOptions()|
      modifies this
      ensures Valid()
      ensures selectedOption == Some(old(VisibleOptions())[index])
      ensures selections == old(selections) + [old(VisibleOptions())[index].value]
      ensures !active
      ensures searchInput == old(VisibleOptions())[index].labelText
    {
      var option := VisibleOptions()[index];
      Select(option);
    }

    /** `onKeyPress`: Enter selects the first available option, if any, which
        is the first option the text matches; every other key, and Enter
        with nothing available, changes nothing. */
    method OnKeyPress(key: string)
      requires Valid()
      modifies this
      ensures Valid()
      ensures key == "Enter" && |old(availableOptions)| > 0 ==>
                selectedOption == Some(old(availableOptions)[0])
                && selections == old(selections) + [old(availableOptions)[0].value]
                && !active
                && searchInput == old(availableOptions)[0].labelText
      ensures key == "Enter" && |old(availableOptions)| > 0 ==>
                exists k :: 0 <= k < |options| && selectedOption == Some(options[k])
                  && (|old(searchInput)| == 0 || Matches(old(searchInput), options[k]))
                  && forall j :: 0 <= j < k ==> |old(searchInput)| > 0 && !Matches(old(searchInput), options[j])
      ensures !(key == "Enter" && |old(availableOptions)| > 0) ==>
                unchanged(this)
    {
      if key == "Enter" && |availableOptions| > 0 {
        FirstAvailableIsFirstMatch(options, searchInput);
        Select(availableOptions[0]);
      }
    }

    /** `onFocus`: non-empty text opens the dropdown. */
    method OnFocus()
      requires Valid()
      modifies this
      ensures Valid()
      ensures active == (old(active) || |searchInput| > 0)
      ensures searchInput == old(searchInput) && selectedOption == old(selectedOption)
      ensures availableOptions == old(availableOptions) && selections == old(selections)
    {
      if |searchInput| > 0 {
        active := true;
      }
    }

    /** The `focusout` listener.  `relatedTargetInside` says whether focus
        moved to an element inside the component; if not, the dropdown closes
        and the text returns to the selected label, or to "". */
    method FocusOut(relatedTargetInside: bool)
      requires Valid()
      modifies this
      ensures Valid()
      ensures relatedTargetInside ==> unchanged(this)
      ensures !relatedTargetInside ==>
                !active && searchInput == SelectedLabel()
                && selectedOption == old(selectedOption) && selections == old(selections)
    {
      if !relatedTargetInside {
        active := false;
        SetSearchInput(SelectedLabel());
      }
    }
  }
}
