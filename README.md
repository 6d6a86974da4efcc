# Keep Rated Notes — a Dafny model

This project models the logic of Keep Rated Notes, a browser notes app in
which users write notes, rate them from one to five stars, put them in a
category and tag them. Notes and tags are kept in the browser's local
storage. The model covers four parts:

- **The store** (`store.dfy`, module `Store`): the notes key and the tags
  key, modelled as class `Store.Store`. `None` means a key is absent. The
  seed data is written on first read. Each read-modify-write operation is a
  method, and each method is specified through pure functions of the stored
  lists (`NotesAfterUpdate`, `WithoutNote`, `AddTagTo`, `StripTag`, ...).
  The lemmas about those functions prove what the operations promise. The
  module also holds the category display names and colour classes.
- **The filter engine** (`filter_engine.dfy`, module `FilterEngine`):
  `filterNotes`, written as the source writes it, with four early returns.
  The lemmas prove that it keeps exactly the notes that pass all four
  criteria, stated declaratively, and that it keeps input order. They also
  prove it is the identity when every criterion is off.
- **The page** (`index_page.dfy`, class `IndexPage.Page`): the in-memory
  notes, tags, filter and editing state. Every store operation is mirrored
  onto that state: prepend on add, replace-by-id on update, remove-by-id on
  delete, append on add-tag. `Valid()` says that the visible notes are the
  filtered notes.
- **The sidebar and the note form** (`filter_sidebar.dfy`,
  `note_dialog.dfy`). Toggling a tag id and reading the rating slider are
  pure functions. The dialog's eight state fields form class
  `NoteDialog.Form`, with the reset effect, the save validation and the
  tag-selection handlers.

Shared pieces: `wrappers.dfy` (Option), `types.dfy` (the records of
src/types/index.ts and tag-list queries), `seqs.dfy` (the array methods
`filter`, `map`, `find` and `findIndex` as generic functions, with lemmas on
order, membership and duplicates) and `text.dfy` (`toLowerCase`,
`includes` and `trim`).

Clock readings are method parameters. This covers `Date.now()` for ids and
`new Date().toISOString()` for timestamps. The six timestamps of the sample
notes are read when the module loads and are given to the `Store`
constructor.

Points where the code's behaviour is easy to misread:

- `addNote` reads the clock twice (src/utils/localStorageUtils.ts:109-110).
  So `createdAt` and `updatedAt` are separate parameters and are not claimed
  equal.
- Embedded note tags are not always in the tag list. The sample note "3"
  carries tags "11" and "12", which are not initial tags.
  `Store.SampleTagsOutsideInitialTags` proves this.
- `updateNote` with an unknown id writes nothing of its own. But its read
  of an absent key still seeds the sample notes. `Store.Store.UpdateNote`
  states this.
- `deleteTag` is two separate writes, tags first and then notes.

## Model

| member | source | states |
|---|---|---|
| Types.CategoryKey | src/types/index.ts:2-10 | each category is a non-empty string of the union type |
| Types.WithoutTag | src/utils/localStorageUtils.ts:161 | keeps exactly the tags whose id differs, as a subsequence of the input |
| Types.HasTagIdIff | src/components/NoteDialog.tsx:97 | a tag list "has" an id exactly when some position carries that id |
| Types.WithoutTagKeepsUniqueIds | src/components/NoteDialog.tsx:104-106 | removing tags by id keeps the ids of a list unique |
| Text.ToLower | src/utils/localStorageUtils.ts:143 | case folding keeps the length and folds each character on its own |
| Text.IncludesIff | src/utils/localStorageUtils.ts:187-188 | `includes` holds exactly when the needle occurs at some position of the text |
| Text.Trim | src/components/NoteDialog.tsx:76 | drops exactly the leading and trailing white space; blank exactly when the input is all white space |
| Store.InitialTagsShape | src/utils/localStorageUtils.ts:9-20 | there are ten initial tags with distinct ids |
| Store.SampleNotes | src/utils/localStorageUtils.ts:23-69 | three sample notes with ids 1 to 3; only the third lacks an image; each takes its two clock readings in order |
| Store.SampleTagsOutsideInitialTags | src/utils/localStorageUtils.ts:62-65 | a sample note embeds a tag whose id is not among the initial tags |
| Store.NewNote | src/utils/localStorageUtils.ts:106-111 | the new note carries exactly the given fields, the new id and the two timestamps |
| Store.IndexOfId | src/utils/localStorageUtils.ts:120 | the first position whose note has the id, or none when no note has it |
| Store.UpdatedNote | src/utils/localStorageUtils.ts:121-130 | the input re-stamped with `now` when its id is stored, otherwise the input unchanged |
| Store.NotesAfterUpdate | src/utils/localStorageUtils.ts:119-131 | same length; only the first match is replaced; with no match the list is unchanged |
| Seqs.FilterCount | src/utils/localStorageUtils.ts:136 | `filter` keeps every occurrence of a passing element and drops every occurrence of a failing one |
| Store.WithoutNote | src/utils/localStorageUtils.ts:136 | every note with the id is removed and the rest stay in order |
| Store.WithoutAbsentNote | src/utils/localStorageUtils.ts:134-138 | deleting an id no note has leaves the list as it is |
| Store.TagNamed | src/utils/localStorageUtils.ts:143 | finds the first stored tag whose name equals the given one ignoring case, and finds none only when no tag matches |
| Store.AddTagTo | src/utils/localStorageUtils.ts:141-156 | reuses the first tag named alike without changing the list, or else appends one tag with exactly the given name |
| Store.AddTagTwice | src/utils/localStorageUtils.ts:141-156 | two adds with names equal ignoring case return the same tag, and the second leaves the list unchanged |
| Store.StripTag | src/utils/localStorageUtils.ts:165-169 | each note keeps its place and its other fields and loses only the tags with the id |
| Store.StripTagRemovesId | src/utils/localStorageUtils.ts:165-169 | after the cascade no note embeds the id, and all its other tags remain |
| Store.Store.constructor | src/utils/localStorageUtils.ts:4-6 | storage starts with whatever the two keys hold |
| Store.Store.GetNotes | src/utils/localStorageUtils.ts:72-80 | an absent key is seeded with the sample notes, which are returned; a present key is returned unwritten, so a second call returns the same list |
| Store.Store.SaveNotes | src/utils/localStorageUtils.ts:83-85 | overwrites the notes key and nothing else |
| Store.Store.GetTags | src/utils/localStorageUtils.ts:88-96 | the same seed-on-absence read, for the initial tags |
| Store.Store.SaveTags | src/utils/localStorageUtils.ts:99-101 | overwrites the tags key and nothing else |
| Store.Store.AddNote | src/utils/localStorageUtils.ts:104-115 | stores the previous notes followed by exactly one new note, which it returns |
| Store.Store.UpdateNote | src/utils/localStorageUtils.ts:118-131 | stores the first-match replacement and returns the re-stamped note; with an unknown id it returns the input and leaves the read list |
| Store.Store.DeleteNote | src/utils/localStorageUtils.ts:134-138 | stores the read list without the notes that have the id |
| Store.Store.AddTag | src/utils/localStorageUtils.ts:141-156 | returns and stores what `AddTagTo` gives for the read tag list |
| Store.Store.DeleteTag | src/utils/localStorageUtils.ts:159-171 | removes the tag from the tag list and strips it from every note |
| Store.GetCategoryName | src/utils/localStorageUtils.ts:217-230 | the record's non-empty entry, so the fallback to the key is dead |
| Store.CategoryNamesDistinct | src/utils/localStorageUtils.ts:218-227 | two categories share a display name only when they are the same category |
| Store.GetCategoryColor | src/utils/localStorageUtils.ts:233-246 | "bg-category-" followed by the category key, never the grey fallback |
| FilterEngine.FromFilter | src/pages/Index.tsx:56 | a full page filter has every field present |
| FilterEngine.FilterNotes | src/utils/localStorageUtils.ts:174-214 | the result is a subsequence of the input and holds exactly the input notes that match |
| FilterEngine.MatchesIff | src/utils/localStorageUtils.ts:183-212 | the four early returns amount to the conjunction of search, category, minimum-rating and all-of-tags criteria |
| FilterEngine.FilterNotesExactly | src/utils/localStorageUtils.ts:183-213 | a note is in the output exactly when it is in the input and passes all four criteria |
| FilterEngine.FilterNotesAppend | src/utils/localStorageUtils.ts:183 | filtering a concatenation filters each part, so input order is kept |
| FilterEngine.FilterNotesSingle | src/utils/localStorageUtils.ts:183-213 | a single note is kept exactly when it matches |
| FilterEngine.FilterNotesInactive | src/utils/localStorageUtils.ts:183-213 | with every criterion absent, empty, "all" or 0 the input is returned unchanged |
| FilterEngine.FilterByCategory | src/utils/localStorageUtils.ts:194-196 | a category other than "all" keeps a note exactly when its category equals it |
| FilterEngine.FilterByRating | src/utils/localStorageUtils.ts:199-201 | a rating threshold keeps a note exactly when its rating is at least the threshold |
| IndexPage.InitialFilterShowsAll | src/pages/Index.tsx:28-33 | the initial filter passes every note list through unchanged |
| IndexPage.ReplaceById | src/pages/Index.tsx:78 | every note with the id becomes the updated note and the others stay |
| IndexPage.MergeEdit | src/pages/Index.tsx:116-119 | the form's fields over the edited note, whose id and timestamps are kept |
| IndexPage.Page.constructor | src/pages/Index.tsx:25-35 | empty lists, the initial filter, the dialog closed and no note being edited |
| IndexPage.Page.ApplyFilters | src/pages/Index.tsx:55-58 | the visible notes become the filtered notes |
| IndexPage.Page.LoadData | src/pages/Index.tsx:38-52 | both lists are read from storage, which is seeded if needed; under the initial filter the visible notes are all the notes |
| IndexPage.Page.HandleFilterChange | src/pages/Index.tsx:60-62 | the new filter replaces the old one |
| IndexPage.Page.HandleCategoryChange | src/pages/Index.tsx:152-154 | only the filter's category changes |
| IndexPage.Page.HandleSearchChange | src/pages/Index.tsx:159-161 | only the filter's search term changes |
| IndexPage.Page.HandleAddNote | src/pages/Index.tsx:64-73 | the new note goes first in memory and last in storage |
| IndexPage.Page.HandleUpdateNote | src/pages/Index.tsx:75-84 | every in-memory note with the id becomes the note the store returned |
| IndexPage.Page.HandleDeleteNote | src/pages/Index.tsx:86-95 | the notes with the id leave memory and storage; the rest keep their order |
| IndexPage.Page.HandleAddTag | src/pages/Index.tsx:97-107 | the returned tag is appended in memory, even when the store already had it; the page invariant is kept |
| IndexPage.Page.HandleEditNote | src/pages/Index.tsx:109-112 | the dialog opens on the note; the page invariant is kept |
| IndexPage.Page.HandleCreateRequest | src/pages/Index.tsx:162-165 | the dialog opens with no note; the page invariant is kept |
| IndexPage.Page.HandleOpenChange | src/pages/Index.tsx:217 | the dialog's open flag takes the given value; the page invariant is kept |
| IndexPage.Page.HandleSaveNote | src/pages/Index.tsx:114-124 | when editing, updates the merged note; otherwise adds a note; either way editing stops |
| FilterSidebar.HandleTagToggle | src/components/FilterSidebar.tsx:28-37 | only the tags change: a present id is removed everywhere, keeping the others in order; an absent id is appended |
| FilterSidebar.ToggleTwiceRestores | src/components/FilterSidebar.tsx:28-31 | toggling an absent id twice restores the filter |
| FilterSidebar.ToggleKeepsNoDuplicates | src/components/FilterSidebar.tsx:28-31 | a toggle keeps a duplicate-free id list duplicate-free |
| FilterSidebar.SliderRating | src/components/FilterSidebar.tsx:24 | slider value 0, or no value, becomes no rating; any other value passes through |
| FilterSidebar.HandleRatingChange | src/components/FilterSidebar.tsx:21-26 | only the rating changes |
| NoteDialog.OrEmpty | src/components/NoteDialog.tsx:57-58 | an absent link shows as the empty string |
| NoteDialog.EmptyToNone | src/components/NoteDialog.tsx:84-85 | an empty link is saved as absent, any other as itself |
| NoteDialog.OptionalFieldRoundTrip | src/components/NoteDialog.tsx:57-85 | showing a link and saving it gives it back, except that an empty link comes back absent |
| NoteDialog.TagById | src/components/NoteDialog.tsx:109 | finds the first available tag with the id, or none when no tag has it |
| NoteDialog.Form.constructor | src/components/NoteDialog.tsx:42-49 | the form starts empty, in category "notes", with five stars and no tags |
| NoteDialog.Form.ResetOnOpen | src/components/NoteDialog.tsx:52-73 | opening resets the form to the note's fields or to the defaults, and clears the tag input; a closed dialog is untouched |
| NoteDialog.Form.HandleSave | src/components/NoteDialog.tsx:75-92 | nothing is saved and the dialog stays open exactly when the title is all white space; otherwise the untrimmed form is saved once, with empty links absent, and the dialog closes |
| NoteDialog.Form.HandleAddTag | src/components/NoteDialog.tsx:94-102 | a blank input changes nothing; otherwise the tag answered for the trimmed name is selected unless its id already is, and the input is cleared; unique ids stay unique |
| NoteDialog.Form.HandleRemoveTag | src/components/NoteDialog.tsx:104-106 | the selected tags with the id are removed and the rest stay in order |
| NoteDialog.Form.HandleSelectExistingTag | src/components/NoteDialog.tsx:108-113 | an available tag is selected only when found and not yet selected by id, so unique ids stay unique |
| NoteDialog.Form.SelectableTags | src/components/NoteDialog.tsx:263-264 | offers exactly the available tags whose id is not selected, in their order |
| NoteDialog.Form.SetTitle | src/components/NoteDialog.tsx:130 | the title input sets the title |
| NoteDialog.Form.SetContent | src/components/NoteDialog.tsx:141 | the content input sets the content |
| NoteDialog.Form.SetUrl | src/components/NoteDialog.tsx:152 | the link input sets the link |
| NoteDialog.Form.SetImageUrl | src/components/NoteDialog.tsx:163 | the image input sets the image link |
| NoteDialog.Form.SetCategory | src/components/NoteDialog.tsx:174 | the category select sets the category |
| NoteDialog.Form.SetRating | src/components/NoteDialog.tsx:196 | a star button sets the rating |
| NoteDialog.Form.SetNewTagInput | src/components/NoteDialog.tsx:235 | the tag input sets the pending tag name |

## Left out

- JSON `stringify`/`parse` and malformed stored values. Storage holds typed lists, so a parse error cannot arise.
- Storage exceptions such as a full quota or disabled storage. This also drops the `try`/`catch` paths of the page, its toasts and `console.error`, and the fallback tag at src/pages/Index.tsx:105.
- The clock. Ids and timestamps are parameters, and nothing is claimed about whether they are unique or equal.
- Unicode case folding. `Text.ToLower` folds only the ASCII letters; `Text.IsSpace` is the full ECMAScript white-space set.
- Aliasing of the seed arrays. On a first read `getNotes`/`getTags` return the module's own sample arrays, and `addNote`/`updateNote`/`addTag` then modify them in place. The model gives lists value semantics, so a later re-seed in the same session would not see those changes.
- React effect scheduling. The filter effect runs as `ApplyFilters` at the end of each handler that changes the notes or the filter. Stale closures over an earlier render are not modelled.
- Non-integer and NaN ratings in a filter. Filter ratings are integers.
- NoteDialog.Form.HandleAddTag: the parent's `onAddTag` is a function parameter that answers the tag for a name. Its effect on storage and on the page is modelled separately, by `IndexPage.Page.HandleAddTag`.
- Rendering. The JSX, styling, dialogs, `useIsMobile`, the Slider/Select widgets, the dialog's category list, and the components CategorySelector, SearchBar and NoteCard (including its URL truncation) are not part of this model.
