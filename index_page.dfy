/** The page of src/pages/Index.tsx: it holds the note list, the tag list and
    the filter in memory, mirrors every store operation onto them, and
    re-derives the visible notes whenever the notes or the filter change. */
module IndexPage {
  import opened Wrappers
  import opened Types
  import Seqs
  import Store
  import FilterEngine

  /** The filter the page starts with: nothing selected. */
  const InitialFilter := Filter("", All, None, [])

  /** The initial filter lets every note through. */
  lemma InitialFilterShowsAll(notes: seq<Note>)
    ensures FilterEngine.FilterNotes(notes, FilterEngine.FromFilter(InitialFilter)) == notes
  {
    FilterEngine.FilterNotesInactive(notes, FilterEngine.FromFilter(InitialFilter));
  }

  /** `notes.map((n) => (n.id === id ? updated : n))`. */
  function ReplaceById(notes: seq<Note>, id: string, updated: Note): (r: seq<Note>)
    ensures |r| == |notes|
    ensures forall i :: 0 <= i < |notes| ==> r[i] == if notes[i].id == id then updated else notes[i]
  {
    Seqs.Map((n: Note) => if n.id == id then updated else n, notes)
  }

  /** `{...editingNote, ...noteData}`: the form's fields over the note being
      edited, which keeps only its id and its two timestamps. */
  function MergeEdit(editing: Note, data: NoteData): (r: Note)
    ensures DataOf(r) == data
    ensures r.id == editing.id && r.createdAt == editing.createdAt && r.updatedAt == editing.updatedAt
  {
    editing.(title := data.title, content := data.content, url := data.url, imageUrl := data.imageUrl,
             category := data.category, rating := data.rating, tags := data.tags)
  }

  class Page {
    const store: Store.Store
    var notes: seq<Note>
    var filteredNotes: seq<Note>
    var tags: seq<Tag>
    var filter: Filter
    var isCreateDialogOpen: bool
    var editingNote: Option<Note>

    /** The visible notes are those the filter lets through. */
    ghost predicate Valid()
      reads this
    {
      filteredNotes == FilterEngine.FilterNotes(notes, FilterEngine.FromFilter(filter))
    }

    /** The state before the data is loaded. */
    constructor (store: Store.Store)
      ensures this.store == store
      ensures notes == [] && filteredNotes == [] && tags == []
      ensures filter == InitialFilter && !isCreateDialogOpen && editingNote.None?
      ensures Valid()
    {
      this.store := store;
      notes, filteredNotes, tags := [], [], [];
      filter := InitialFilter;
      isCreateDialogOpen := false;
      editingNote := None;
    }

    /** The effect that recomputes the visible notes. */
    method ApplyFilters()
      modifies this`filteredNotes
      ensures Valid()
    {
      filteredNotes := FilterEngine.FilterNotes(notes, FilterEngine.FromFilter(filter));
    }

    /** `loadData`: reads (and, on first use, seeds) both keys. */
    method LoadData()
      modifies this, store
      ensures notes == old(store.NoteList()) && tags == old(store.TagList())
      ensures store.notes == Some(notes) && store.tags == Some(tags)
      ensures filter == old(filter) && editingNote == old(editingNote)
      ensures isCreateDialogOpen == old(isCreateDialogOpen)
      ensures Valid()
      ensures filter == InitialFilter ==> filteredNotes == notes
    {
      var storedNotes := store.GetNotes();
      var storedTags := store.GetTags();
      notes := storedNotes;
      tags := storedTags;
      ApplyFilters();
      InitialFilterShowsAll(notes);
    }

    /** `handleFilterChange`: the sidebar's new filter replaces the old one. */
    method HandleFilterChange(newFilter: Filter)
      modifies this`filter, this`filteredNotes
      ensures filter == newFilter && Valid()
    {
      filter := newFilter;
      ApplyFilters();
    }

    /** The category selector changes the category and nothing else. */
    method HandleCategoryChange(category: Category)
      modifies this`filter, this`filteredNotes
      ensures filter == old(filter).(category := category) && Valid()
    {
      filter := filter.(category := category);
      ApplyFilters();
    }

    /** The search bar changes the search term and nothing else. */
    method HandleSearchChange(searchTerm: string)
      modifies this`filter, this`filteredNotes
      ensures filter == old(filter).(searchTerm := searchTerm) && Valid()
    {
      filter := filter.(searchTerm := searchTerm);
      ApplyFilters();
    }

    /** `handleAddNote`: the store appends the new note, the page puts it first. */
    method HandleAddNote(data: NoteData, id: string, createdAt: string, updatedAt: string)
      modifies this`notes, this`filteredNotes, store
      ensures notes == [Store.NewNote(data, id, createdAt, updatedAt)] + old(notes)
      ensures store.notes == Some(old(store.NoteList()) + [Store.NewNote(data, id, createdAt, updatedAt)])
      ensures store.tags == old(store.tags)
      ensures Valid()
    {
      var newNote := store.AddNote(data, id, createdAt, updatedAt);
      notes := [newNote] + notes;
      ApplyFilters();
    }

    /** `handleUpdateNote`: every in-memory note with the input's id becomes
        the note `updateNote` returned. */
    method HandleUpdateNote(note: Note, now: string)
      modifies this`notes, this`filteredNotes, store
      ensures notes == ReplaceById(old(notes), note.id, Store.UpdatedNote(old(store.NoteList()), note, now))
      ensures store.notes == Some(Store.NotesAfterUpdate(old(store.NoteList()), note, now))
      ensures store.tags == old(store.tags)
      ensures Valid()
    {
      var updatedNote := store.UpdateNote(note, now);
      notes := ReplaceById(notes, note.id, updatedNote);
      ApplyFilters();
    }

    /** `handleDeleteNote`: the note goes from the store and from memory. */
    method HandleDeleteNote(id: string)
      modifies this`notes, this`filteredNotes, store
      ensures notes == Store.WithoutNote(old(notes), id)
      ensures store.notes == Some(Store.WithoutNote(old(store.NoteList()), id))
      ensures store.tags == old(store.tags)
      ensures Valid()
    {
      store.DeleteNote(id);
      notes := Store.WithoutNote(notes, id);
      ApplyFilters();
    }

    /** `handleAddTag`: the tag `addTag` returns is appended to the in-memory
        list, even when it is one the store already had. */
    method HandleAddTag(name: string, freshId: string) returns (t: Tag)
      modifies this`tags, store
      ensures t == Store.AddTagTo(old(store.TagList()), name, freshId).tag
      ensures tags == old(tags) + [t]
      ensures store.tags == Some(Store.AddTagTo(old(store.TagList()), name, freshId).tags)
      ensures store.notes == old(store.notes)
      ensures old(Valid()) ==> Valid()
    {
      t := store.AddTag(name, freshId);
      tags := tags + [t];
    }

    /** `handleEditNote`: opens the dialog on a note. */
    method HandleEditNote(note: Note)
      modifies this`editingNote, this`isCreateDialogOpen
      ensures editingNote == Some(note) && isCreateDialogOpen
      ensures old(Valid()) ==> Valid()
    {
      editingNote := Some(note);
      isCreateDialogOpen := true;
    }

    /** The "add note" and "create note" buttons: opens an empty dialog. */
    method HandleCreateRequest()
      modifies this`editingNote, this`isCreateDialogOpen
      ensures editingNote.None? && isCreateDialogOpen
      ensures old(Valid()) ==> Valid()
    {
      editingNote := None;
      isCreateDialogOpen := true;
    }

    /** The dialog's `onOpenChange`. */
    method HandleOpenChange(open: bool)
      modifies this`isCreateDialogOpen
      ensures isCreateDialogOpen == open
      ensures old(Valid()) ==> Valid()
    {
      isCreateDialogOpen := open;
    }

    /** `handleSaveNote`: while editing, updates the edited note with the
        form's fields; otherwise adds a new note. Either way, stops editing. */
    method HandleSaveNote(data: NoteData, id: string, createdAt: string, updatedAt: string, now: string)
      modifies this`notes, this`filteredNotes, this`editingNote, store
      ensures old(editingNote).Some? ==>
        var merged := MergeEdit(old(editingNote).value, data);
        && notes == ReplaceById(old(notes), merged.id, Store.UpdatedNote(old(store.NoteList()), merged, now))
        && store.notes == Some(Store.NotesAfterUpdate(old(store.NoteList()), merged, now))
      ensures old(editingNote).None? ==>
        && notes == [Store.NewNote(data, id, createdAt, updatedAt)] + old(notes)
        && store.notes == Some(old(store.NoteList()) + [Store.NewNote(data, id, createdAt, updatedAt)])
      ensures store.tags == old(store.tags)
      ensures editingNote.None? && Valid()
    {
      match editingNote {
        case Some(editing) =>
          HandleUpdateNote(MergeEdit(editing, data), now);
        case None =>
          HandleAddNote(data, id, createdAt, updatedAt);
      }
      editingNote := None;
    }
  }
}
