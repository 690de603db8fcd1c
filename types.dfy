/** The data model of the filter builder: column schema, operators, typed
    values, the filter record and the view result handed to the host. */
module Types {
  import opened Wrappers

  /** The declared type of a column; the enum's runtime values are the tag names. */
  datatype ColumnType = STRING | NUMBER | DATE

  /** A column of the host's schema. */
  datatype Column = Column(key: string, valueType: ColumnType)

  datatype FilterOperator = EQUALS | NOT_EQUALS | GREATER_THAN | LESS_THAN

  /** The enum's string value, which is also its key in `Object.keys(FilterOperator)`. */
  function OperatorName(op: FilterOperator): string
  {
    match op
    case EQUALS => "EQUALS"
    case NOT_EQUALS => "NOT_EQUALS"
    case GREATER_THAN => "GREATER_THAN"
    case LESS_THAN => "LESS_THAN"
  }

  /** `Object.keys(FilterOperator)`: every operator once, in declaration order. */
  function AllOperators(): (ops: seq<FilterOperator>)
    ensures |ops| == 4
    ensures forall op: FilterOperator :: op in ops
    ensures forall i, j :: 0 <= i < j < |ops| ==> ops[i] != ops[j]
    ensures forall i, j :: 0 <= i < j < |ops| ==> OperatorName(ops[i]) != OperatorName(ops[j])
    ensures ops[0] == EQUALS && ops[1] == NOT_EQUALS && ops[2] == GREATER_THAN && ops[3] == LESS_THAN
  {
    var ops := [EQUALS, NOT_EQUALS, GREATER_THAN, LESS_THAN];
    assert forall op: FilterOperator :: op in ops by {
      forall op: FilterOperator ensures op in ops {
        OperatorListed(op);
      }
    }
    ops
  }

  lemma OperatorListed(op: FilterOperator)
    ensures op in [EQUALS, NOT_EQUALS, GREATER_THAN, LESS_THAN]
  {
    match op
    case EQUALS =>
    case NOT_EQUALS =>
    case GREATER_THAN =>
    case LESS_THAN =>
  }

  /** A JavaScript number: NaN or a numeric value.  Only its truthiness
      matters to the core, so infinities and -0 are not distinguished. */
  datatype Number = NaN | Num(v: real)

  /** A JavaScript `Date`: a time value, or the "Invalid Date" that
      `new Date(text)` yields for text it cannot parse. */
  datatype Date = ValidDate(epochMillis: int) | InvalidDate

  /** `Date | Number | string`, the run-time type of a filter's value. */
  datatype Value = StrVal(s: string) | NumVal(n: Number) | DateVal(d: Date)

  /** The opaque identity token of a filter (a UUID in the source). */
  type Id = string

  /** `Filter = FilledFilter | EmptyFilter`.  `EmptyFilter` is `FilledFilter`
      with every field but `id` optional, so one record with optional fields
      covers both; a filled filter is one whose three options are all `Some`. */
  datatype Filter = Filter(
    id: Id,
    column: Option<Column>,
    operator: Option<FilterOperator>,
    value: Option<Value>)

  /** A filter with no column chosen: the "empty" entry. */
  predicate IsEmptyFilter(f: Filter)
  {
    f.column.None?
  }

  /** The result record: an ordered list of filters. */
  datatype ViewResult = ViewResult(filters: seq<Filter>)
}
