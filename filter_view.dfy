/** The filter-list reducer: upsert and delete by identity, with the rule
    that the list keeps an empty filter for the user's next entry. */
module FilterView {
  import opened Wrappers
  import opened Types
  import Seqs

  /** `FilterViewAction`.  `Unrecognized` stands for any other action object,
      which the reducer's `default` branch answers with the state itself. */
  datatype FilterViewAction =
    | Update(data: Filter)
    | Delete(data: Filter)
    | Unrecognized(tag: string)

  /** `isFilterValid(filter?)`: the argument and its column, operator and
      value are all present.  Presence is all that is tested: an empty string
      or the number 0 counts as a value. */
  predicate IsFilterValid(filter: Option<Filter>)
  {
    match filter
    case None => false
    case Some(f) => f.column.Some? && f.operator.Some? && f.value.Some?
  }

  /** Validity is presence: an undefined filter or any absent field
      falsifies it, while "" and 0 are values like any other. */
  lemma ValidIffComplete(f: Filter, id: Id, column: Column, operator: FilterOperator)
    ensures !IsFilterValid(None)
    ensures IsFilterValid(Some(f)) <==> f.column.Some? && f.operator.Some? && f.value.Some?
    ensures IsFilterValid(Some(Filter(id, Some(column), Some(operator), Some(StrVal("")))))
    ensures IsFilterValid(Some(Filter(id, Some(column), Some(operator), Some(NumVal(Num(0.0))))))
  {
  }

  /** `isFilterValid` of a list element, as the predicate `filter` is given. */
  predicate IsValidEntry(f: Filter)
  {
    IsFilterValid(Some(f))
  }

  /** `buildEmptyFilter()`, with the UUID drawn by `crypto.randomUUID()` supplied as `freshId`. */
  function BuildEmptyFilter(freshId: Id): (f: Filter)
    ensures f.id == freshId && f.column.None? && f.operator.None? && f.value.None?
    ensures IsEmptyFilter(f) && !IsValidEntry(f)
  {
    Filter(freshId, None, None, None)
  }

  /** `hasEmptyFilter(filters)`. */
  predicate HasEmptyFilter(filters: seq<Filter>)
  {
    exists i :: 0 <= i < |filters| && IsEmptyFilter(filters[i])
  }

  /** The number of empty filters in the list. */
  function CountEmpty(filters: seq<Filter>): nat
  {
    Seqs.Count(filters, IsEmptyFilter)
  }

  /** The ids present in the list. */
  function IdsOf(filters: seq<Filter>): set<Id>
  {
    set i | 0 <= i < |filters| :: filters[i].id
  }

  /** No two entries share an id. */
  predicate UniqueIds(filters: seq<Filter>)
  {
    forall i, j :: 0 <= i < j < |filters| ==> filters[i].id != filters[j].id
  }

  /** `filters.findIndex(filter => filter.id === id)`: the first index holding
      `id`, or -1 when there is none. */
  function FirstIndexOfId(filters: seq<Filter>, id: Id): (k: int)
    ensures -1 <= k < |filters|
    ensures k >= 0 ==> filters[k].id == id && forall j :: 0 <= j < k ==> filters[j].id != id
    ensures k == -1 <==> forall j :: 0 <= j < |filters| ==> filters[j].id != id
  {
    if |filters| == 0 then -1
    else if filters[0].id == id then 0
    else
      var k := FirstIndexOfId(filters[1..], id);
      if k == -1 then -1 else k + 1
  }

  /** The step both mutators end with: append a fresh empty filter unless one is present. */
  function EnsureEmptyFilter(filters: seq<Filter>, freshId: Id): (r: seq<Filter>)
    ensures HasEmptyFilter(r)
    ensures |r| == |filters| + (if HasEmptyFilter(filters) then 0 else 1)
    ensures r[..|filters|] == filters
    ensures |r| > |filters| ==> r[|filters|] == BuildEmptyFilter(freshId)
  {
    if HasEmptyFilter(filters) then filters
    else
      var r := filters + [BuildEmptyFilter(freshId)];
      assert IsEmptyFilter(r[|filters|]);
      r
  }

  /** `addOrUpdateFilter(filters, data)`: replace the first entry with `data.id`
      by `data`, or append `data`; then keep an empty filter present. */
  function AddOrUpdate(filters: seq<Filter>, data: Filter, freshId: Id): (r: seq<Filter>)
    ensures HasEmptyFilter(r)
  {
    var k := FirstIndexOfId(filters, data.id);
    var placed := if k == -1 then filters + [data] else filters[k := data];
    EnsureEmptyFilter(placed, freshId)
  }

  /** `deleteFilter(filters, data)`: an unmatched id leaves the list as it is;
      otherwise the first entry with `data.id` is spliced out and an empty
      filter is kept present. */
  function Remove(filters: seq<Filter>, data: Filter, freshId: Id): (r: seq<Filter>)
    ensures HasEmptyFilter(filters) ==> HasEmptyFilter(r)
  {
    var k := FirstIndexOfId(filters, data.id);
    if k == -1 then filters
    else EnsureEmptyFilter(filters[..k] + filters[k+1..], freshId)
  }

  /** `filterViewReducer(state, action)`. */
  function FilterViewReducer(state: ViewResult, action: FilterViewAction, freshId: Id): (r: ViewResult)
    ensures HasEmptyFilter(state.filters) ==> HasEmptyFilter(r.filters)
    ensures action.Update? ==> HasEmptyFilter(r.filters)
    ensures action.Unrecognized? ==> r == state
  {
    match action
    case Update(data) => state.(filters := AddOrUpdate(state.filters, data, freshId))
    case Delete(data) => state.(filters := Remove(state.filters, data, freshId))
    case Unrecognized(_) => state
  }

  /** `initFilterView(initialData)`: the seed as it is when it already has an
      empty filter, otherwise the seed's list with one fresh empty filter appended. */
  function InitFilterView(initialData: ViewResult, freshId: Id): (r: ViewResult)
    ensures HasEmptyFilter(r.filters)
    ensures HasEmptyFilter(initialData.filters) ==> r == initialData
    ensures !HasEmptyFilter(initialData.filters) ==>
              r.filters == initialData.filters + [BuildEmptyFilter(freshId)]
  {
    if HasEmptyFilter(initialData.filters) then initialData
    else ViewResult(EnsureEmptyFilter(initialData.filters, freshId))
  }

  // ---------------------------------------------------------------------
  // The imperative form: copy the list, search it with findIndex, then
  // push / assign / splice.

  /** `filters.findIndex(filter => filter.id === id)` as a search loop. */
  method FindIndex(filters: seq<Filter>, id: Id) returns (index: int)
    ensures index == FirstIndexOfId(filters, id)
  {
    var i := 0;
    while i < |filters|
      invariant 0 <= i <= |filters|
      invariant forall j :: 0 <= j < i ==> filters[j].id != id
    {
      if filters[i].id == id {
        return i;
      }
      i := i + 1;
    }
    return -1;
  }

  /** `addOrUpdateFilter`, step by step. */
  method AddOrUpdateFilter(filters: seq<Filter>, data: Filter, freshId: Id) returns (newFilters: seq<Filter>)
    ensures newFilters == AddOrUpdate(filters, data, freshId)
  {
    newFilters := filters;
    var existingFilter := FindIndex(newFilters, data.id);
    if existingFilter == -1 {
      newFilters := newFilters + [data];
    } else {
      newFilters := newFilters[existingFilter := data];
    }
    if !HasEmptyFilter(newFilters) {
      newFilters := newFilters + [BuildEmptyFilter(freshId)];
    }
  }

  /** `deleteFilter`, step by step. */
  method DeleteFilter(filters: seq<Filter>, data: Filter, freshId: Id) returns (newFilters: seq<Filter>)
    ensures newFilters == Remove(filters, data, freshId)
  {
    newFilters := filters;
    var existingFilter := FindIndex(newFilters, data.id);
    if existingFilter == -1 {
      return newFilters;
    }
    newFilters := newFilters[..existingFilter] + newFilters[existingFilter + 1..];
    if !HasEmptyFilter(newFilters) {
      newFilters := newFilters + [BuildEmptyFilter(freshId)];
    }
  }

  // ---------------------------------------------------------------------
  // Properties of the reducer.

  /** Updating an existing id: the first entry with that id becomes `data`,
      every other position keeps its entry, and a fresh empty filter is
      appended exactly when no entry other than `data` is empty. */
  lemma UpdateExisting(filters: seq<Filter>, data: Filter, freshId: Id, k: nat)
    requires k < |filters| && filters[k].id == data.id
    requires forall j :: 0 <= j < k ==> filters[j].id != data.id
    ensures var r := AddOrUpdate(filters, data, freshId);
      && r[k] == data
      && (forall j :: 0 <= j < |filters| && j != k ==> r[j] == filters[j])
      && (|r| == |filters| || |r| == |filters| + 1)
      && (|r| == |filters| + 1 <==>
            !IsEmptyFilter(data) && forall j :: 0 <= j < |filters| && j != k ==> !IsEmptyFilter(filters[j]))
      && (|r| == |filters| + 1 ==> r[|filters|] == BuildEmptyFilter(freshId))
  {
    var placed := filters[k := data];
    assert FirstIndexOfId(filters, data.id) == k;
    if !IsEmptyFilter(data) && forall j :: 0 <= j < |filters| && j != k ==> !IsEmptyFilter(filters[j]) {
      assert !HasEmptyFilter(placed);
    } else if IsEmptyFilter(data) {
      assert IsEmptyFilter(placed[k]);
    } else {
      var j :| 0 <= j < |filters| && j != k && IsEmptyFilter(filters[j]);
      assert IsEmptyFilter(placed[j]);
    }
  }

  /** Updating with a new id: the old list followed by `data`, then a fresh
      empty filter exactly when neither the old list nor `data` is empty. */
  lemma UpdateNew(filters: seq<Filter>, data: Filter, freshId: Id)
    requires forall j :: 0 <= j < |filters| ==> filters[j].id != data.id
    ensures var r := AddOrUpdate(filters, data, freshId);
      && r[..|filters| + 1] == filters + [data]
      && |r| == |filters| + 1 + (if HasEmptyFilter(filters) || IsEmptyFilter(data) then 0 else 1)
      && (|r| > |filters| + 1 ==> r[|filters| + 1] == BuildEmptyFilter(freshId))
  {
    var placed := filters + [data];
    if HasEmptyFilter(filters) {
      var j :| 0 <= j < |filters| && IsEmptyFilter(filters[j]);
      assert IsEmptyFilter(placed[j]);
    } else if IsEmptyFilter(data) {
      assert IsEmptyFilter(placed[|filters|]);
    } else {
      assert !HasEmptyFilter(placed);
    }
  }

  /** After an update, looking `data.id` up finds `data` itself. */
  lemma UpdateThenLookup(filters: seq<Filter>, data: Filter, freshId: Id)
    ensures var r := AddOrUpdate(filters, data, freshId);
      var k := FirstIndexOfId(r, data.id);
      k >= 0 && r[k] == data
  {
    var r := AddOrUpdate(filters, data, freshId);
    var k := FirstIndexOfId(filters, data.id);
    if k == -1 {
      UpdateNew(filters, data, freshId);
      assert r[|filters|] == data;
      assert forall j :: 0 <= j < |filters| ==> r[j] == filters[j];
      assert FirstIndexOfId(r, data.id) == |filters|;
    } else {
      UpdateExisting(filters, data, freshId, k);
      assert FirstIndexOfId(r, data.id) == k;
    }
  }

  /** Deleting an id that is not present returns the list unchanged; in
      particular no empty filter is added on this path. */
  lemma DeleteMiss(filters: seq<Filter>, data: Filter, freshId: Id)
    requires forall j :: 0 <= j < |filters| ==> filters[j].id != data.id
    ensures Remove(filters, data, freshId) == filters
  {
  }

  /** Deleting a present id removes exactly its first entry; the others keep
      their order, followed by a fresh empty filter exactly when none is left. */
  lemma DeleteHit(filters: seq<Filter>, data: Filter, freshId: Id, k: nat)
    requires k < |filters| && filters[k].id == data.id
    requires forall j :: 0 <= j < k ==> filters[j].id != data.id
    ensures var r := Remove(filters, data, freshId);
      var rest := filters[..k] + filters[k+1..];
      && r[..|filters| - 1] == rest
      && |r| == |filters| - 1 + (if HasEmptyFilter(rest) then 0 else 1)
      && HasEmptyFilter(r)
      && (|r| == |filters| ==> r[|filters| - 1] == BuildEmptyFilter(freshId))
  {
    assert FirstIndexOfId(filters, data.id) == k;
  }

  /** With fresh ids, an update keeps ids unique and adds `data.id` (and the
      fresh id, when an empty filter had to be appended) to the ids present. */
  lemma UpdateKeepsIdsUnique(filters: seq<Filter>, data: Filter, freshId: Id)
    requires UniqueIds(filters)
    requires freshId !in IdsOf(filters) && freshId != data.id
    ensures var r := AddOrUpdate(filters, data, freshId);
      && UniqueIds(r)
      && IdsOf(filters) + {data.id} <= IdsOf(r) <= IdsOf(filters) + {data.id, freshId}
  {
    var r := AddOrUpdate(filters, data, freshId);
    var k := FirstIndexOfId(filters, data.id);
    if k == -1 {
      UpdateNew(filters, data, freshId);
      var placed := filters + [data];
      assert data.id !in IdsOf(filters);
      assert IdsOf(placed) == IdsOf(filters) + {data.id} by {
        assert forall i :: 0 <= i < |placed| ==> placed[i].id in IdsOf(filters) + {data.id};
        assert forall x :: x in IdsOf(filters) ==> x in IdsOf(placed) by {
          forall x | x in IdsOf(filters) ensures x in IdsOf(placed) {
            var i :| 0 <= i < |filters| && filters[i].id == x;
            assert placed[i].id == x;
          }
        }
        assert placed[|filters|].id == data.id;
      }
      IdsAfterEnsure(placed, freshId);
    } else {
      UpdateExisting(filters, data, freshId, k);
      var placed := filters[k := data];
      assert data.id in IdsOf(filters);
      assert IdsOf(placed) == IdsOf(filters) by {
        assert forall i :: 0 <= i < |placed| ==> placed[i].id == filters[i].id;
        SameIds(placed, filters);
      }
      assert UniqueIds(placed);
      IdsAfterEnsure(placed, freshId);
    }
  }

  /** Two lists with the same id at every position have the same id set. */
  lemma SameIds(a: seq<Filter>, b: seq<Filter>)
    requires |a| == |b| && forall i :: 0 <= i < |a| ==> a[i].id == b[i].id
    ensures IdsOf(a) == IdsOf(b)
  {
    forall x | x in IdsOf(a) ensures x in IdsOf(b) {
      var i :| 0 <= i < |a| && a[i].id == x;
      assert b[i].id == x;
    }
    forall x | x in IdsOf(b) ensures x in IdsOf(a) {
      var i :| 0 <= i < |b| && b[i].id == x;
      assert a[i].id == x;
    }
  }

  /** Ensuring an empty filter with a fresh id keeps ids unique. */
  lemma IdsAfterEnsure(filters: seq<Filter>, freshId: Id)
    requires UniqueIds(filters) && freshId !in IdsOf(filters)
    ensures var r := EnsureEmptyFilter(filters, freshId);
      && UniqueIds(r)
      && IdsOf(r) == IdsOf(filters) + (if |r| > |filters| then {freshId} else {})
  {
    var r := EnsureEmptyFilter(filters, freshId);
    if |r| > |filters| {
      assert r == filters + [BuildEmptyFilter(freshId)];
      forall i | 0 <= i < |filters| ensures r[i].id != freshId {
        assert filters[i].id in IdsOf(filters);
      }
      forall x | x in IdsOf(r) ensures x in IdsOf(filters) + {freshId} {
        var i :| 0 <= i < |r| && r[i].id == x;
        if i < |filters| { assert filters[i].id == x; }
      }
      forall x | x in IdsOf(filters) + {freshId} ensures x in IdsOf(r) {
        if x == freshId {
          assert r[|filters|].id == x;
        } else {
          var i :| 0 <= i < |filters| && filters[i].id == x;
          assert r[i].id == x;
        }
      }
    }
  }

  /** With a fresh id, a delete keeps ids unique; when `data.id` was present
      (and ids were unique) it is gone afterwards. */
  lemma DeleteKeepsIdsUnique(filters: seq<Filter>, data: Filter, freshId: Id)
    requires UniqueIds(filters)
    requires freshId !in IdsOf(filters)
    ensures UniqueIds(Remove(filters, data, freshId))
    ensures freshId != data.id ==> data.id !in IdsOf(Remove(filters, data, freshId))
  {
    var k := FirstIndexOfId(filters, data.id);
    if k >= 0 {
      var rest := filters[..k] + filters[k+1..];
      assert forall i :: 0 <= i < |rest| ==> rest[i] == (if i < k then filters[i] else filters[i + 1]);
      assert UniqueIds(rest);
      forall i | 0 <= i < |rest| ensures rest[i].id != freshId && rest[i].id != data.id {
        if i < k {
          assert filters[i].id in IdsOf(filters);
        } else {
          assert filters[i + 1].id in IdsOf(filters);
        }
      }
      assert freshId !in IdsOf(rest);
      IdsAfterEnsure(rest, freshId);
    }
  }

  /** An action that brings no new empty filter: anything but an update
      whose data has no column.  Every action a pill dispatches is one. */
  predicate AddsNoEmpty(action: FilterViewAction)
  {
    !(action.Update? && IsEmptyFilter(action.data))
  }

  /** "Exactly one empty filter" is kept by every action that brings no
      empty filter itself: all deletes, and all updates with a column. */
  lemma OneEmptyKept(state: ViewResult, action: FilterViewAction, freshId: Id)
    requires CountEmpty(state.filters) == 1
    requires AddsNoEmpty(action)
    ensures CountEmpty(FilterViewReducer(state, action, freshId).filters) == 1
  {
    if !action.Unrecognized? {
      var fs := state.filters;
      var k := FirstIndexOfId(fs, action.data.id);
      var placed := if action.Delete? && k >= 0 then fs[..k] + fs[k+1..]
                    else if k == -1 then fs + [action.data] else fs[k := action.data];
      if action.Update? {
        if k == -1 {
          Seqs.CountAppend(fs, [action.data], IsEmptyFilter);
          assert Seqs.Count([action.data], IsEmptyFilter) == 0 by {
            assert [action.data][1..] == [];
          }
        } else {
          Seqs.CountUpdate(fs, k, action.data, IsEmptyFilter);
        }
        EnsureKeepsOne(placed, freshId);
      } else if k >= 0 {
        Seqs.CountRemove(fs, k, IsEmptyFilter);
        EnsureKeepsOne(placed, freshId);
      }
    }
  }

  /** Ensuring an empty filter on a list with at most one gives exactly one. */
  lemma EnsureKeepsOne(filters: seq<Filter>, freshId: Id)
    requires CountEmpty(filters) <= 1
    ensures CountEmpty(EnsureEmptyFilter(filters, freshId)) == 1
  {
    Seqs.CountPositive(filters, IsEmptyFilter);
    if !HasEmptyFilter(filters) {
      var e := BuildEmptyFilter(freshId);
      Seqs.CountAppend(filters, [e], IsEmptyFilter);
      assert Seqs.Count([e], IsEmptyFilter) == 1 by {
        assert [e][1..] == [];
      }
    }
  }

  /** The code does not itself rule out two empty filters: an update with a
      new empty filter, which no pill sends, leaves two. */
  lemma UpdateWithEmptyDataMayDuplicate()
    ensures var fs := [BuildEmptyFilter("a")];
      CountEmpty(AddOrUpdate(fs, BuildEmptyFilter("b"), "c")) == 2
  {
    var fs := [BuildEmptyFilter("a")];
    var r := AddOrUpdate(fs, BuildEmptyFilter("b"), "c");
    assert FirstIndexOfId(fs, "b") == -1;
    assert IsEmptyFilter(r[0]);
    assert r == [BuildEmptyFilter("a"), BuildEmptyFilter("b")];
    assert r[1..][1..] == [];
  }

  /** `initFilterView` is idempotent: a second application changes nothing. */
  lemma InitIdempotent(initialData: ViewResult, freshId: Id, otherId: Id)
    ensures InitFilterView(InitFilterView(initialData, freshId), otherId) == InitFilterView(initialData, freshId)
  {
  }
}
