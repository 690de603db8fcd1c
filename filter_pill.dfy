/** One filter row: its draft state, the record updaters its pickers call,
    its styling state, and the callbacks through which it reaches the list. */
module FilterPill {
  import opened Wrappers
  import opened Types
  import opened FilterView
  import opened AutocompleteInput

  /** `FilterOperatorLabels`: the text shown for each operator. */
  function OperatorLabel(op: FilterOperator): string
  {
    match op
    case EQUALS => "= (equals)"
    case NOT_EQUALS => "!= (not equals)"
    case GREATER_THAN => "> (greater than)"
    case LESS_THAN => "< (less than)"
  }

  /** `setColumn`'s updater.  Choosing a column on an empty row also sets the
      operator to EQUALS and clears the value; on a started row only the
      column changes. */
  function SetColumn(current: Filter, column: Column): (r: Filter)
    ensures r.id == current.id && r.column == Some(column)
    ensures IsEmptyFilter(current) ==> r.operator == Some(EQUALS) && r.value == None
    ensures !IsEmptyFilter(current) ==> r.operator == current.operator && r.value == current.value
  {
    if IsEmptyFilter(current) then
      current.(column := Some(column), operator := Some(EQUALS), value := None)
    else
      current.(column := Some(column))
  }

  /** `setOperator`'s updater: only the operator changes. */
  function SetOperator(current: Filter, operator: FilterOperator): (r: Filter)
    ensures r.operator == Some(operator)
    ensures r.id == current.id && r.column == current.column && r.value == current.value
  {
    current.(operator := Some(operator))
  }

  /** `setValue`'s updater: only the value changes. */
  function SetValue(current: Filter, value: Value): (r: Filter)
    ensures r.value == Some(value)
    ensures r.id == current.id && r.column == current.column && r.operator == current.operator
  {
    current.(value := Some(value))
  }

  /** Choosing a second column is the same as choosing only the second: the
      reset happens on the first choice and is not repeated. */
  lemma SetColumnTwice(f: Filter, first: Column, second: Column)
    ensures SetColumn(SetColumn(f, first), second) == SetColumn(f, second)
  {
  }

  /** On an empty row, choosing a column alone never completes the filter;
      choosing a column and then a value always does. */
  lemma ColumnThenValueCompletes(f: Filter, column: Column, value: Value)
    requires IsEmptyFilter(f)
    ensures !IsValidEntry(SetColumn(f, column))
    ensures IsValidEntry(SetValue(SetColumn(f, column), value))
  {
  }

  /** The operator and value setters touch different fields, so their order
      does not matter. */
  lemma OperatorAndValueCommute(f: Filter, operator: FilterOperator, value: Value)
    ensures SetOperator(SetValue(f, value), operator) == SetValue(SetOperator(f, operator), value)
  {
  }

  /** The pill's CSS state. */
  datatype PillClass =
    | Idle           // "filter": no column chosen
    | ActiveInvalid  // "filter-active filter-invalid": started, not complete
    | Active         // "filter-active": complete

  /** `filterClass()`: three disjoint cases covering every filter. */
  function FilterClass(f: Filter): (c: PillClass)
    ensures c == Idle <==> IsEmptyFilter(f)
    ensures c == Active <==> IsValidEntry(f)
    ensures c == ActiveInvalid <==> !IsEmptyFilter(f) && !IsValidEntry(f)
  {
    if f.column.None? then Idle
    else if !IsFilterValid(Some(f)) then ActiveInvalid
    else Active
  }

  /** What the pill renders besides the column picker. */
  datatype Controls = Controls(deleteButton: bool, operatorPicker: bool, valueInput: Option<ColumnType>)

  /** The delete button, the operator picker and the value input appear only
      once a column is chosen; the value input is the one for the column's type. */
  function OfferedControls(f: Filter): (c: Controls)
    ensures c.deleteButton <==> f.column.Some?
    ensures c.operatorPicker <==> f.column.Some?
    ensures c.valueInput.Some? <==> f.column.Some?
    ensures f.column.Some? ==> c.valueInput == Some(f.column.value.valueType)
  {
    match f.column
    case None => Controls(false, false, None)
    case Some(column) => Controls(true, true, Some(column.valueType))
  }

  /** `columnOptions`: one entry per column, in order, keyed and labelled by its key. */
  function ColumnOptions(columnData: seq<Column>): (r: seq<SelectOption<Column>>)
    ensures |r| == |columnData|
    ensures forall i :: 0 <= i < |r| ==>
              r[i].value == columnData[i] && r[i].key == columnData[i].key && r[i].labelText == columnData[i].key
  {
    seq(|columnData|, i requires 0 <= i < |columnData| =>
      SelectOption(columnData[i].key, columnData[i].key, columnData[i]))
  }

  /** `operatorOptions`: one entry per operator, in declaration order, keyed
      by its name and labelled by its display text. */
  function OperatorOptions(): (r: seq<SelectOption<FilterOperator>>)
    ensures |r| == 4
    ensures forall op: FilterOperator :: SelectOption(OperatorName(op), OperatorLabel(op), op) in r
    ensures forall i, j :: 0 <= i < j < |r| ==> r[i].value != r[j].value
    ensures forall i :: 0 <= i < |r| ==> r[i].value == AllOperators()[i]
    ensures forall i :: 0 <= i < |r| ==>
              r[i].key == OperatorName(r[i].value) && r[i].labelText == OperatorLabel(r[i].value)
  {
    var ops := AllOperators();
    var r := seq(|ops|, i requires 0 <= i < |ops| => SelectOption(OperatorName(ops[i]), OperatorLabel(ops[i]), ops[i]));
    assert forall op: FilterOperator :: SelectOption(OperatorName(op), OperatorLabel(op), op) in r by {
      forall op: FilterOperator ensures SelectOption(OperatorName(op), OperatorLabel(op), op) in r {
        assert op in ops;
        var i :| 0 <= i < |ops| && ops[i] == op;
        assert r[i] == SelectOption(OperatorName(op), OperatorLabel(op), op);
      }
    }
    r
  }

  /** The column picker of a pill opens on the pill's column when it is
      one of the schema's columns, and on nothing otherwise. */
  lemma ColumnPreselected(columnData: seq<Column>, column: Option<Column>)
    ensures var found := FindByValue(ColumnOptions(columnData), column);
      && (column.Some? && column.value in columnData ==>
            found == Some(SelectOption(column.value.key, column.value.key, column.value)))
      && (column.None? || column.value !in columnData ==> found.None?)
  {
    var options := ColumnOptions(columnData);
    var found := FindByValue(options, column);
    if column.Some? && column.value in columnData {
      var i :| 0 <= i < |columnData| && columnData[i] == column.value;
      assert Some(options[i].value) == column;
      assert found.Some?;
    }
  }

  /** The operator picker of a started pill opens on the pill's operator. */
  lemma OperatorPreselected(operator: FilterOperator)
    ensures FindByValue(OperatorOptions(), Some(operator))
              == Some(SelectOption(OperatorName(operator), OperatorLabel(operator), operator))
  {
    var options := OperatorOptions();
    var option := SelectOption(OperatorName(operator), OperatorLabel(operator), operator);
    assert option in options;
    var found := FindByValue(options, Some(operator));
    assert found.Some?;
  }

  /** The call `onChange(filterState)` the effect on `filterState` makes, if any. */
  function Emission(f: Filter): (r: seq<Filter>)
    ensures r == [f] <==> IsValidEntry(f)
    ensures r == [] <==> !IsValidEntry(f)
  {
    if IsFilterValid(Some(f)) then [f] else []
  }

  /** The `FilterPill` component.  `changes` and `deletions` record the calls
      of `onChange` and `onDelete`, oldest first. */
  class Pill {
    var filterState: Filter
    var changes: seq<Filter>
    var deletions: seq<Filter>

    /** Only complete filters reach `onChange`, only started ones reach
        `onDelete`, and every call carries the pill's own id. */
    ghost predicate Valid()
      reads this
    {
      && (forall i :: 0 <= i < |changes| ==> IsValidEntry(changes[i]) && changes[i].id == filterState.id)
      && (forall i :: 0 <= i < |deletions| ==> deletions[i].column.Some? && deletions[i].id == filterState.id)
    }

    /** `useState(initialData)`; the effect's first run reports a complete initial filter. */
    constructor (initialData: Filter)
      ensures Valid()
      ensures filterState == initialData
      ensures changes == Emission(initialData) && deletions == []
    {
      filterState := initialData;
      changes := Emission(initialData);
      deletions := [];
    }

    /** The column picker's `onSelect`. */
    method SelectColumn(column: Column)
      requires Valid()
      modifies this
      ensures Valid()
      ensures filterState == SetColumn(old(filterState), column)
      ensures changes == old(changes) + Emission(filterState) && deletions == old(deletions)
    {
      filterState := SetColumn(filterState, column);
      changes := changes + Emission(filterState);
    }

    /** The operator picker's `onSelect`. */
    method SelectOperator(operator: FilterOperator)
      requires Valid()
      modifies this
      ensures Valid()
      ensures filterState == SetOperator(old(filterState), operator)
      ensures changes == old(changes) + Emission(filterState) && deletions == old(deletions)
    {
      filterState := SetOperator(filterState, operator);
      changes := changes + Emission(filterState);
    }

    /** The typed input's `onChange`. */
    method CommitValue(value: Value)
      requires Valid()
      modifies this
      ensures Valid()
      ensures filterState == SetValue(old(filterState), value)
      ensures changes == old(changes) + Emission(filterState) && deletions == old(deletions)
    {
      filterState := SetValue(filterState, value);
      changes := changes + Emission(filterState);
    }

    /** A click on the delete button, which is rendered only once a column is chosen. */
    method ClickDelete()
      requires Valid() && OfferedControls(filterState).deleteButton
      modifies this
      ensures Valid()
      ensures filterState == old(filterState) && changes == old(changes)
      ensures deletions == old(deletions) + [filterState]
    {
      deletions := deletions + [filterState];
    }
  }
}
