/** The top-level widget: reducer state seeded by `initFilterView`, the
    pills' callbacks dispatching to it, and the projection emitted to the
    host after every state change. */
module FilterBuilderView {
  import opened Wrappers
  import opened Types
  import opened FilterView
  import Seqs

  /** `initialView`: the seed handed to `initFilterView`. */
  const InitialView := ViewResult([])

  /** `parseFilterView(data)`: the view with its incomplete filters removed. */
  function ParseFilterView(data: ViewResult): (r: ViewResult)
    ensures forall i :: 0 <= i < |r.filters| ==> IsValidEntry(r.filters[i]) && r.filters[i] in data.filters
    ensures forall i :: 0 <= i < |data.filters| && IsValidEntry(data.filters[i]) ==> data.filters[i] in r.filters
  {
    data.(filters := Seqs.FilterSeq(data.filters, IsValidEntry))
  }

  /** The emitted list is exactly the subsequence of valid filters, in order:
      it keeps their order, holds only valid filters, and drops none
      (its length is the number of valid entries); any list with these three
      properties is the emitted one. */
  lemma ParseIsValidSubsequence(data: ViewResult, other: seq<Filter>)
    ensures Seqs.IsSubsequence(ParseFilterView(data).filters, data.filters)
    ensures |ParseFilterView(data).filters| == Seqs.Count(data.filters, IsValidEntry)
    ensures Seqs.IsSubsequence(other, data.filters)
            && (forall i :: 0 <= i < |other| ==> IsValidEntry(other[i]))
            && |other| == Seqs.Count(data.filters, IsValidEntry)
            ==> other == ParseFilterView(data).filters
  {
    Seqs.FilterSeqIsSubsequence(data.filters, IsValidEntry);
    Seqs.FilterSeqLength(data.filters, IsValidEntry);
    if Seqs.IsSubsequence(other, data.filters)
       && (forall i :: 0 <= i < |other| ==> IsValidEntry(other[i]))
       && |other| == Seqs.Count(data.filters, IsValidEntry) {
      Seqs.FilterSeqUnique(other, data.filters, IsValidEntry);
    }
  }

  /** Projecting an already projected view changes nothing. */
  lemma ParseIdempotent(data: ViewResult)
    ensures ParseFilterView(ParseFilterView(data)) == ParseFilterView(data)
  {
    Seqs.FilterSeqIdempotent(data.filters, IsValidEntry);
  }

  /** The widget starts from a single empty filter, so the host's first
      result holds no filters. */
  lemma InitialEmission(freshId: Id)
    ensures InitFilterView(InitialView, freshId).filters == [BuildEmptyFilter(freshId)]
    ensures ParseFilterView(InitFilterView(InitialView, freshId)) == ViewResult([])
  {
  }

  /** The `FilterBuilderView` component: the reducer state and the results
      handed to the host's `onChange`, oldest first. */
  class Widget {
    var filterView: ViewResult
    var emitted: seq<ViewResult>

    /** Always an empty filter to type into, ids unique, and the host's last
        result is the projection of the current state. */
    ghost predicate Valid()
      reads this
    {
      && HasEmptyFilter(filterView.filters)
      && UniqueIds(filterView.filters)
      && |emitted| > 0
      && emitted[|emitted| - 1] == ParseFilterView(filterView)
    }

    /** `useReducer(filterViewReducer, initialView, initFilterView)` and the
        effect's first run. */
    constructor (freshId: Id)
      ensures Valid()
      ensures filterView == InitFilterView(InitialView, freshId)
      ensures filterView.filters == [BuildEmptyFilter(freshId)]
      ensures emitted == [ViewResult([])]
    {
      var initial := InitFilterView(InitialView, freshId);
      filterView := initial;
      emitted := [ParseFilterView(initial)];
    }

    /** `updateFilter`, the pills' `onChange`: dispatch `filter:update`, then
        emit the projection of the new state. */
    method UpdateFilter(filter: Filter, freshId: Id)
      requires Valid()
      requires freshId !in IdsOf(filterView.filters) && freshId != filter.id
      modifies this
      ensures Valid()
      ensures filterView == FilterViewReducer(old(filterView), Update(filter), freshId)
      ensures emitted == old(emitted) + [ParseFilterView(filterView)]
      ensures CountEmpty(old(filterView.filters)) == 1 && !IsEmptyFilter(filter) ==>
                CountEmpty(filterView.filters) == 1
    {
      var filters := filterView.filters;
      UpdateKeepsIdsUnique(filters, filter, freshId);
      if CountEmpty(filters) == 1 && !IsEmptyFilter(filter) {
        OneEmptyKept(filterView, Update(filter), freshId);
      }
      var newFilters := AddOrUpdateFilter(filters, filter, freshId);
      filterView := ViewResult(newFilters);
      emitted := emitted + [ParseFilterView(filterView)];
    }

    /** `deleteFilter`, the pills' `onDelete`: dispatch `filter:delete`, then
        emit the projection of the new state. */
    method DeleteFilter(filter: Filter, freshId: Id)
      requires Valid()
      requires freshId !in IdsOf(filterView.filters)
      modifies this
      ensures Valid()
      ensures filterView == FilterViewReducer(old(filterView), Delete(filter), freshId)
      ensures emitted == old(emitted) + [ParseFilterView(filterView)]
      ensures CountEmpty(old(filterView.filters)) == 1 ==> CountEmpty(filterView.filters) == 1
    {
      var filters := filterView.filters;
      DeleteKeepsIdsUnique(filters, filter, freshId);
      if CountEmpty(filters) == 1 {
        OneEmptyKept(filterView, Delete(filter), freshId);
      }
      var newFilters := FilterView.DeleteFilter(filters, filter, freshId);
      filterView := ViewResult(newFilters);
      emitted := emitted + [ParseFilterView(filterView)];
    }
  }
}
