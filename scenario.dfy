/** A client of the components' contracts: the walk-through in which a user
    picks the column "name" on the initial empty pill and types "Alice". */
module Scenario {
  import opened Wrappers
  import opened Types
  import opened FilterView
  import opened FilterBuilderView
  import opened FilterPill
  import opened TypedInput
  import Seqs

  /** The pill and its string input: only the completed filter is reported. */
  method PillReportsAlice() returns (complete: Filter)
  {
    var name := Column("name", STRING);
    var pill := new Pill(BuildEmptyFilter("id-0"));
    assert pill.changes == [];
    pill.SelectColumn(name);
    assert pill.filterState == Filter("id-0", Some(name), Some(EQUALS), None);
    assert pill.changes == [];
    assert FilterClass(pill.filterState) == ActiveInvalid;

    var field := new Field(name.valueType, pill.filterState.value);
    assert field.input == StringInput && field.value == None;
    field.DebounceElapsed();
    assert field.commits == [];
    field.OnChange(InputEvent("Alice", NaN, InvalidDate));
    field.DebounceElapsed();
    assert field.commits == [StrVal("Alice")];

    pill.CommitValue(StrVal("Alice"));
    complete := Filter("id-0", Some(name), Some(EQUALS), Some(StrVal("Alice")));
    assert pill.changes == [complete];
    assert FilterClass(complete) == Active;
  }

  /** The reducer step of the walk-through: completing the only filter
      appends a fresh empty one, and the projection shows the completed one. */
  lemma {:induction false} FirstPillUpdate(id0: Id, id1: Id, complete: Filter)
    requires id1 != id0 && complete.id == id0 && IsValidEntry(complete)
    ensures id1 !in IdsOf([BuildEmptyFilter(id0)])
    ensures FilterViewReducer(ViewResult([BuildEmptyFilter(id0)]), Update(complete), id1)
              == ViewResult([complete, BuildEmptyFilter(id1)])
    ensures ParseFilterView(ViewResult([complete, BuildEmptyFilter(id1)])) == ViewResult([complete])
  {
    var before := [BuildEmptyFilter(id0)];
    UpdateExisting(before, complete, id1, 0);
    var after := AddOrUpdate(before, complete, id1);
    assert after == [complete, BuildEmptyFilter(id1)];
    assert IdsOf(before) == {id0};
    var e := [complete, BuildEmptyFilter(id1)];
    assert e[1..][1..] == [];
    assert Seqs.FilterSeq(e[1..], IsValidEntry) == [];
    assert Seqs.FilterSeq(e, IsValidEntry) == [complete];
  }

  /** The widget: the host first sees no filters, then exactly the completed
      first filter (here "name = Alice"), while the state also holds a fresh
      empty filter. */
  method WidgetEmitsFirstFilter(id0: Id, id1: Id, complete: Filter)
    requires id1 != id0 && complete.id == id0 && IsValidEntry(complete)
  {
    var widget := new Widget(id0);
    FirstPillUpdate(id0, id1, complete);
    widget.UpdateFilter(complete, id1);
    assert widget.emitted == [ViewResult([]), ViewResult([complete])];
  }

  /** The walk-through with the values of the "name = Alice" example. */
  method WidgetEmitsAlice()
  {
    WidgetEmitsFirstFilter("id-0", "id-1",
      Filter("id-0", Some(Column("name", STRING)), Some(EQUALS), Some(StrVal("Alice"))));
  }

  /** Retyping the text the hook last delivered commits nothing new: the
      debounced value is the same string, so the effect does not run again. */
  method RetypedTextCommitsOnce()
  {
    var field := new Field(STRING, None);
    field.OnChange(InputEvent("Alice", NaN, InvalidDate));
    field.DebounceElapsed();
    field.OnChange(InputEvent("Alic", NaN, InvalidDate));
    field.OnChange(InputEvent("Alice", NaN, InvalidDate));
    field.DebounceElapsed();
    field.DebounceElapsed();
    assert field.commits == [StrVal("Alice")];
  }

  /** Choosing a NUMBER column mounts a number input, which reports 0 at
      once, so the row is complete before anything is typed. */
  method NumberColumnCompletesAtMount()
  {
    var age := Column("age", NUMBER);
    var pill := new Pill(BuildEmptyFilter("id-0"));
    pill.SelectColumn(age);
    assert pill.changes == [];
    var field := new Field(age.valueType, pill.filterState.value);
    assert field.commits == [NumVal(Num(0.0))];
    pill.CommitValue(field.commits[0]);
    assert pill.changes == [Filter("id-0", Some(age), Some(EQUALS), Some(NumVal(Num(0.0))))];
  }
}
