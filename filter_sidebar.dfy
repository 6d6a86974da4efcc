/** The two handlers of src/components/FilterSidebar.tsx. Each builds a new
    filter from the current one and hands it to the page. */
module FilterSidebar {
  import opened Wrappers
  import opened Types
  import Seqs

  /** `handleTagToggle`: an id that is selected is taken out (every
      occurrence of it); an id that is not is appended at the end. Nothing
      but the tag list changes. */
  function HandleTagToggle(filter: Filter, tagId: string): (r: Filter)
    ensures r == filter.(tags := r.tags)
    ensures tagId in filter.tags ==>
      && tagId !in r.tags
      && (forall id :: id in filter.tags && id != tagId ==> id in r.tags)
      && (forall id :: id in r.tags ==> id in filter.tags)
      && Seqs.IsSubsequence(r.tags, filter.tags)
    ensures tagId !in filter.tags ==> r.tags == filter.tags + [tagId]
  {
    var updatedTags :=
      if tagId in filter.tags then
        Seqs.FilterIsSubsequence((id: string) => id != tagId, filter.tags);
        Seqs.Filter((id: string) => id != tagId, filter.tags)
      else filter.tags + [tagId];
    filter.(tags := updatedTags)
  }

  /** Checking a box and then unchecking it restores the filter. */
  lemma ToggleTwiceRestores(filter: Filter, tagId: string)
    requires tagId !in filter.tags
    ensures HandleTagToggle(HandleTagToggle(filter, tagId), tagId) == filter
  {
    var keep := (id: string) => id != tagId;
    Seqs.FilterAppend(keep, filter.tags, [tagId]);
    Seqs.FilterKeepsAll(keep, filter.tags);
    assert Seqs.Filter(keep, [tagId]) == [] by {
      assert [tagId][1..] == [];
    }
  }

  /** A toggle never introduces a duplicate id. */
  lemma ToggleKeepsNoDuplicates(filter: Filter, tagId: string)
    requires Seqs.NoDuplicates(filter.tags)
    ensures Seqs.NoDuplicates(HandleTagToggle(filter, tagId).tags)
  {
    if tagId in filter.tags {
      Seqs.FilterNoDuplicates((id: string) => id != tagId, filter.tags);
    } else {
      Seqs.AppendAbsentNoDuplicates(filter.tags, tagId);
    }
  }

  /** `value[0] || null`: the slider's first value, with 0 (and no value at
      all) read as "no minimum". */
  function SliderRating(value: seq<int>): (r: Option<int>)
    ensures r.None? <==> |value| == 0 || value[0] == 0
    ensures r.Some? ==> r.value == value[0]
  {
    if |value| == 0 || value[0] == 0 then None else Some(value[0])
  }

  /** `handleRatingChange`: only the rating changes. */
  function HandleRatingChange(filter: Filter, value: seq<int>): (r: Filter)
    ensures r.rating == SliderRating(value)
    ensures r.searchTerm == filter.searchTerm && r.category == filter.category && r.tags == filter.tags
  {
    filter.(rating := SliderRating(value))
  }
}
