/** The value input of a pill: one sub-input per column type, each holding a
    draft value and committing the debounced value upward by its own rule. */
module TypedInput {
  import opened Wrappers
  import opened Types

  /** The three sub-inputs. */
  datatype SubInput = StringInput | NumberInput | DateInput

  /** The `switch (type)` of `TypedInput`: each column type has its own sub-input. */
  function Dispatch(t: ColumnType): (s: SubInput)
    ensures s == StringInput <==> t == STRING
    ensures s == NumberInput <==> t == NUMBER
    ensures s == DateInput <==> t == DATE
  {
    match t
    case NUMBER => NumberInput
    case DATE => DateInput
    case STRING => StringInput
  }

  /** JavaScript truthiness of a possibly undefined value: `undefined`, "",
      0 and NaN are falsy; every `Date` object is truthy. */
  predicate Truthy(v: Option<Value>)
  {
    match v
    case None => false
    case Some(StrVal(s)) => |s| > 0
    case Some(NumVal(n)) => n.Num? && n.v != 0.0
    case Some(DateVal(_)) => true
  }

  /** `isDate(value)`: defined and a `Date` instance, valid or not. */
  predicate IsDate(v: Option<Value>)
  {
    v.Some? && v.value.DateVal?
  }

  /** The draft's initial state.  The caller's cast does not convert the
      default, so a stale value of another type is kept as it is. */
  function InitialValue(input: SubInput, defaultValue: Option<Value>): (r: Option<Value>)
    ensures input != NumberInput ==> r == defaultValue
    ensures input == NumberInput && Truthy(defaultValue) ==> r == defaultValue
    ensures input == NumberInput && !Truthy(defaultValue) ==> r == Some(NumVal(Num(0.0)))
  {
    match input
    case NumberInput => if Truthy(defaultValue) then defaultValue else Some(NumVal(Num(0.0)))
    case _ => defaultValue
  }

  /** A change event: the input's text together with what `Number(text)` and
      `new Date(text)` make of it (the parsers themselves are not modelled). */
  datatype InputEvent = InputEvent(text: string, asNumber: Number, asDate: Date)

  /** The value each sub-input's change handler stores. */
  function EditedValue(input: SubInput, event: InputEvent): Value
  {
    match input
    case StringInput => StrVal(event.text)
    case NumberInput => NumVal(event.asNumber)
    case DateInput => DateVal(event.asDate)
  }

  /** Whether the effect on the debounced value calls `onChange`: STRING only
      for truthy values, NUMBER always, DATE only for `Date` instances. */
  predicate Commits(input: SubInput, debounced: Option<Value>)
  {
    match input
    case StringInput => Truthy(debounced)
    case NumberInput => true
    case DateInput => IsDate(debounced)
  }

  /** STRING commits exactly the non-empty strings; undefined never commits. */
  lemma StringCommitRule(s: string)
    ensures Commits(StringInput, Some(StrVal(s))) <==> |s| > 0
    ensures !Commits(StringInput, None)
  {
  }

  /** NUMBER commits every debounced value, 0 and NaN included. */
  lemma NumberCommitRule(n: Number)
    ensures Commits(NumberInput, Some(NumVal(n)))
    ensures Commits(NumberInput, Some(NumVal(Num(0.0))))
  {
  }

  /** DATE commits every `Date` instance, the Invalid Date included, and
      nothing that is undefined or not a `Date`. */
  lemma DateCommitRule(d: Date, other: Option<Value>)
    requires !(other.Some? && other.value.DateVal?)
    ensures Commits(DateInput, Some(DateVal(d))) && Commits(DateInput, Some(DateVal(InvalidDate)))
    ensures !Commits(DateInput, other) && !Commits(DateInput, None)
  {
  }

  /** The call the effect on the debounced value makes, if any: the
      argument of `onChange`, or nothing. */
  function EffectCall(input: SubInput, debounced: Option<Value>): (r: seq<Value>)
    ensures |r| <= 1
    ensures |r| == 1 <==> Commits(input, debounced) && debounced.Some?
    ensures |r| == 1 ==> r[0] == debounced.value
  {
    if Commits(input, debounced) && debounced.Some? then [debounced.value] else []
  }

  /** A number input calls `onChange` when it mounts: with its default when
      that is truthy, and with 0 otherwise. */
  lemma NumberMountCommits(defaultValue: Option<Value>)
    ensures EffectCall(NumberInput, InitialValue(NumberInput, defaultValue))
              == [if Truthy(defaultValue) then defaultValue.value else NumVal(Num(0.0))]
  {
  }

  /** A string or date input calls `onChange` at mount exactly when its
      default passes its rule, and then with that default. */
  lemma DefaultMountCommits(input: SubInput, defaultValue: Option<Value>)
    requires input != NumberInput
    ensures |EffectCall(input, InitialValue(input, defaultValue))| == 1 <==>
              (if input == StringInput then Truthy(defaultValue) else IsDate(defaultValue))
    ensures |EffectCall(input, InitialValue(input, defaultValue))| == 1 ==>
              EffectCall(input, InitialValue(input, defaultValue)) == [defaultValue.value]
  {
  }

  /** What an uncontrolled input shows from its default value. */
  datatype Display =
    | Blank             // ""
    | Shows(v: Value)   // React's rendering of the value
    | IsoText(d: Date)  // d.toISOString()
    | Throws            // toISOString() raised RangeError

  /** The default text of the STRING and DATE inputs: `defaultValue || ""`
      and `isDate(defaultValue) ? defaultValue.toISOString() : ""`. */
  function DefaultDisplay(input: SubInput, defaultValue: Option<Value>): (r: Display)
    requires input != NumberInput
    ensures input == StringInput ==> (r == Blank <==> !Truthy(defaultValue))
    ensures input == StringInput && Truthy(defaultValue) ==> r == Shows(defaultValue.value)
    ensures input == DateInput ==> (r == Blank <==> !IsDate(defaultValue))
    ensures input == DateInput && IsDate(defaultValue) ==>
              r == if defaultValue.value.d.ValidDate? then IsoText(defaultValue.value.d) else Throws
  {
    match input
    case StringInput => if Truthy(defaultValue) then Shows(defaultValue.value) else Blank
    case DateInput =>
      if IsDate(defaultValue) then
        (if defaultValue.value.d.ValidDate? then IsoText(defaultValue.value.d) else Throws)
      else Blank
  }

  /** A date input commits the Invalid Date that unparseable text gives; once
      that is the filter's value, the next render of the date input throws. */
  lemma InvalidDateCommitsThenThrows(event: InputEvent)
    requires event.asDate == InvalidDate
    ensures Commits(DateInput, Some(EditedValue(DateInput, event)))
    ensures DefaultDisplay(DateInput, Some(EditedValue(DateInput, event))) == Throws
  {
  }

  /** One mounted sub-input.  `value` is the draft held by `useState`,
      `debounced` the value the debounce hook currently returns, and
      `commits` records the calls of `onChange`, oldest first.  Strings and
      numbers are compared by value, as `Object.is` does; every date parse
      is a new `Date` object, so `newDate` records that the draft is a
      `Date` the hook has not yet delivered. */
  class Field {
    const input: SubInput
    const defaultValue: Option<Value>
    var value: Option<Value>
    var debounced: Option<Value>
    var newDate: bool
    var commits: seq<Value>

    /** A number input's draft and debounced value are never undefined, and
        only a date input draws new `Date` objects. */
    ghost predicate Valid()
      reads this
    {
      && (input == NumberInput ==> value.Some? && debounced.Some?)
      && (newDate ==> input == DateInput)
    }

    /** The hook's next output differs from its current one under
        `Object.is`, so the effect on the debounced value will run again. */
    predicate Pending()
      reads this
    {
      value != debounced || newDate
    }

    /** Mounting the sub-input chosen for column type `t`.  The debounce
        hook first returns the initial draft, and the effect on it runs once
        after the first render. */
    constructor (t: ColumnType, defaultValue: Option<Value>)
      ensures Valid()
      ensures input == Dispatch(t) && this.defaultValue == defaultValue
      ensures value == InitialValue(input, defaultValue) && debounced == value && !newDate
      ensures commits == EffectCall(input, value)
    {
      input := Dispatch(t);
      this.defaultValue := defaultValue;
      var initial := InitialValue(Dispatch(t), defaultValue);
      value := initial;
      debounced := initial;
      newDate := false;
      commits := EffectCall(Dispatch(t), initial);
    }

    /** The change handler: the draft becomes the edited value; nothing is committed. */
    method OnChange(event: InputEvent)
      requires Valid()
      modifies this
      ensures Valid()
      ensures value == Some(EditedValue(input, event)) && newDate == (input == DateInput)
      ensures debounced == old(debounced) && commits == old(commits)
    {
      value := Some(EditedValue(input, event));
      newDate := input == DateInput;
    }

    /** The debounce delay elapsed: the hook returns the current draft, and
        the effect on the debounced value runs only if that is a different
        value (or a new `Date` object) from the one it returned before. */
    method DebounceElapsed()
      requires Valid()
      modifies this
      ensures Valid()
      ensures value == old(value) && debounced == value && !newDate
      ensures old(Pending()) ==> commits == old(commits) + EffectCall(input, value)
      ensures !old(Pending()) ==> commits == old(commits)
    {
      if Pending() {
        debounced := value;
        newDate := false;
        commits := commits + EffectCall(input, value);
      }
    }
  }
}
