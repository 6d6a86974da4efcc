/** `filterNotes` of src/utils/localStorageUtils.ts: the pure filter that
    derives the visible notes from the note list and the filter criteria. */
module FilterEngine {
  import opened Wrappers
  import opened Types
  import Seqs
  import Text

  /** The argument `filterNotes` takes: every field may be absent. */
  datatype Criteria = Criteria(
    searchTerm: Option<string>,
    category: Option<Category>,
    rating: Option<int>,
    tags: Option<seq<string>>)

  /** The criteria a full page filter stands for. */
  function FromFilter(f: Filter): (c: Criteria)
    ensures c.searchTerm == Some(f.searchTerm) && c.category == Some(f.category)
    ensures c.rating == f.rating && c.tags == Some(f.tags)
  {
    Criteria(Some(f.searchTerm), Some(f.category), f.rating, Some(f.tags))
  }

  /** The test `filterNotes` applies to one note, with its four early
      returns in the source's order. A field counts only when it is truthy:
      a non-empty term, a category other than "all", a non-zero rating, a
      non-empty tag list. */
  predicate Matches(c: Criteria, n: Note)
  {
    if c.searchTerm.Some? && c.searchTerm.value != ""
       && !Text.Includes(Text.ToLower(n.title), Text.ToLower(c.searchTerm.value))
       && !Text.Includes(Text.ToLower(n.content), Text.ToLower(c.searchTerm.value))
    then false
    else if c.category.Some? && c.category.value != All && n.category != c.category.value then false
    else if c.rating.Some? && c.rating.value != 0 && n.rating < c.rating.value then false
    else if c.tags.Some? && |c.tags.value| > 0
            && !(forall id :: id in c.tags.value ==> id in TagIds(n.tags))
    then false
    else true
  }

  /** `filterNotes`: the notes that match, in input order. */
  function FilterNotes(notes: seq<Note>, c: Criteria): (r: seq<Note>)
    ensures forall n :: n in r ==> n in notes && Matches(c, n)
    ensures forall n :: n in notes && Matches(c, n) ==> n in r
    ensures Seqs.IsSubsequence(r, notes)
  {
    Seqs.FilterIsSubsequence((n: Note) => Matches(c, n), notes);
    Seqs.Filter((n: Note) => Matches(c, n), notes)
  }

  // ----- The criteria, stated on their own -----

  /** Case-insensitive substring search. */
  ghost predicate Mentions(text: string, term: string)
  {
    exists i :: Text.OccursAt(Text.ToLower(text), Text.ToLower(term), i)
  }

  ghost predicate SearchPasses(term: Option<string>, n: Note)
  {
    term.Some? && term.value != "" ==> Mentions(n.title, term.value) || Mentions(n.content, term.value)
  }

  ghost predicate CategoryPasses(category: Option<Category>, n: Note)
  {
    category.Some? && category.value != All ==> n.category == category.value
  }

  ghost predicate RatingPasses(rating: Option<int>, n: Note)
  {
    rating.Some? && rating.value != 0 ==> n.rating >= rating.value
  }

  /** Every filter tag id is the id of one of the note's tags. */
  ghost predicate TagsPass(ids: Option<seq<string>>, n: Note)
  {
    ids.Some? ==> forall id :: id in ids.value ==> exists k :: 0 <= k < |n.tags| && n.tags[k].id == id
  }

  /** A note passes the filter exactly when it passes each of the four
      criteria: the filter is their conjunction. */
  lemma {:induction false} MatchesIff(c: Criteria, n: Note)
    ensures Matches(c, n) <==>
      SearchPasses(c.searchTerm, n) && CategoryPasses(c.category, n)
      && RatingPasses(c.rating, n) && TagsPass(c.tags, n)
  {
    if c.searchTerm.Some? {
      var term := Text.ToLower(c.searchTerm.value);
      Text.IncludesIff(Text.ToLower(n.title), term);
      Text.IncludesIff(Text.ToLower(n.content), term);
    }
    if c.tags.Some? {
      forall id | id in c.tags.value
        ensures id in TagIds(n.tags) <==> exists k :: 0 <= k < |n.tags| && n.tags[k].id == id
      {
        HasTagIdIff(n.tags, id);
      }
    }
  }

  /** `filterNotes` keeps exactly the notes that pass all four criteria. */
  lemma FilterNotesExactly(notes: seq<Note>, c: Criteria, n: Note)
    ensures n in FilterNotes(notes, c) <==>
      n in notes && SearchPasses(c.searchTerm, n) && CategoryPasses(c.category, n)
      && RatingPasses(c.rating, n) && TagsPass(c.tags, n)
  {
    MatchesIff(c, n);
  }

  /** Filtering a concatenation filters each part, so the output keeps the
      input order and is determined note by note. */
  lemma FilterNotesAppend(a: seq<Note>, b: seq<Note>, c: Criteria)
    ensures FilterNotes(a + b, c) == FilterNotes(a, c) + FilterNotes(b, c)
  {
    Seqs.FilterAppend((n: Note) => Matches(c, n), a, b);
  }

  /** A single note is kept exactly when it matches. */
  lemma FilterNotesSingle(n: Note, c: Criteria)
    ensures FilterNotes([n], c) == if Matches(c, n) then [n] else []
  {
    assert [n][1..] == [];
  }

  /** Every criterion switched off. */
  predicate Inactive(c: Criteria)
  {
    && (c.searchTerm.None? || c.searchTerm == Some(""))
    && (c.category.None? || c.category == Some(All))
    && (c.rating.None? || c.rating == Some(0))
    && (c.tags.None? || c.tags == Some([]))
  }

  /** With every criterion inactive `filterNotes` returns its input. */
  lemma FilterNotesInactive(notes: seq<Note>, c: Criteria)
    requires Inactive(c)
    ensures FilterNotes(notes, c) == notes
  {
    Seqs.FilterKeepsAll((n: Note) => Matches(c, n), notes);
  }

  /** The category criterion on its own keeps a note exactly when its
      category is the one asked for. */
  lemma FilterByCategory(n: Note, category: Category)
    requires category != All
    ensures n in FilterNotes([n], Criteria(None, Some(category), None, None)) <==> n.category == category
  {
    FilterNotesSingle(n, Criteria(None, Some(category), None, None));
  }

  /** The rating criterion on its own is a minimum: a note is kept exactly
      when its rating reaches the threshold (a threshold of 0 is off, and
      every rating reaches it). */
  lemma FilterByRating(n: Note, rating: int)
    ensures n in FilterNotes([n], Criteria(None, None, Some(rating), None)) <==> n.rating >= rating
  {
    FilterNotesSingle(n, Criteria(None, None, Some(rating), None));
  }
}
