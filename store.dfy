/** The persistence layer of src/utils/localStorageUtils.ts: two storage keys,
    one holding the note list and one the tag list, the seed data written
    when a key is absent, the read-modify-write operations on them, and the
    display labels of the categories. */
module Store {
  import opened Wrappers
  import opened Types
  import Seqs
  import Text

  /** The ten tags written when the tag key is absent. */
  const InitialTags: seq<Tag> := [
    Tag("1", "Action"), Tag("2", "Adventure"), Tag("3", "Comedy"), Tag("4", "Drama"),
    Tag("5", "Horror"), Tag("6", "Fantasy"), Tag("7", "Sci-Fi"), Tag("8", "Romance"),
    Tag("9", "Documentary"), Tag("10", "Mystery")]

  lemma InitialTagsShape()
    ensures |InitialTags| == 10 && UniqueIds(InitialTags)
  {
  }

  /** The three sample notes written when the note key is absent. Their six
      timestamps are read from the clock when the module loads; `stamps`
      holds them in source order. */
  function SampleNotes(stamps: seq<string>): (r: seq<Note>)
    requires |stamps| == 6
    ensures |r| == 3
    ensures r[0].id == "1" && r[1].id == "2" && r[2].id == "3"
    ensures r[2].imageUrl.None? && r[0].imageUrl.Some? && r[1].imageUrl.Some?
    ensures forall i :: 0 <= i < 3 ==> r[i].createdAt == stamps[2 * i] && r[i].updatedAt == stamps[2 * i + 1]
  {
    [ Note("1", "Tensei Shitara Slime Datta Ken",
           "Great isekai anime about a slime that can mimic abilities.",
           Some("https://example.com/tensei-slime"),
           Some("https://source.unsplash.com/random/300x200?anime"),
           Anime, 5, [Tag("2", "Adventure"), Tag("6", "Fantasy")], stamps[0], stamps[1]),
      Note("2", "Omniscient Reader",
           "A web novel reader becomes part of the story he's reading.",
           Some("https://example.com/omniscient-reader"),
           Some("https://source.unsplash.com/random/300x200?book"),
           Comic, 5, [Tag("1", "Action"), Tag("2", "Adventure"), Tag("6", "Fantasy")], stamps[2], stamps[3]),
      Note("3", "Visual Studio Code",
           "The best code editor for web development.",
           Some("https://code.visualstudio.com"),
           None,
           Others, 4, [Tag("11", "Productivity"), Tag("12", "Development")], stamps[4], stamps[5]) ]
  }

  /** The sample data does not keep embedded tags inside the tag list: the
      third sample note carries tags "11" and "12", which are not among the
      initial tags. */
  lemma SampleTagsOutsideInitialTags(stamps: seq<string>)
    requires |stamps| == 6
    ensures exists t :: t in SampleNotes(stamps)[2].tags && !HasTagId(InitialTags, t.id)
  {
    var t := SampleNotes(stamps)[2].tags[0];
    assert t.id == "11";
    assert forall k :: 0 <= k < |InitialTags| ==> |InitialTags[k].id| < 2 || InitialTags[k].id[1] == '0';
    HasTagIdIff(InitialTags, t.id);
  }

  // ----- The operations, as functions of the stored lists -----

  /** The note `addNote` appends: the edited fields, a new id and the two
      timestamps read from the clock. */
  function NewNote(data: NoteData, id: string, createdAt: string, updatedAt: string): (n: Note)
    ensures DataOf(n) == data
    ensures n.id == id && n.createdAt == createdAt && n.updatedAt == updatedAt
  {
    Note(id, data.title, data.content, data.url, data.imageUrl, data.category, data.rating,
         data.tags, createdAt, updatedAt)
  }

  /** `notes.findIndex((n) => n.id === id)`. */
  function IndexOfId(notes: seq<Note>, id: string): (r: Option<nat>)
    ensures r.Some? ==> r.value < |notes| && notes[r.value].id == id
    ensures r.Some? ==> forall j :: 0 <= j < r.value ==> notes[j].id != id
    ensures r.None? <==> forall j :: 0 <= j < |notes| ==> notes[j].id != id
  {
    Seqs.FindIndex((n: Note) => n.id == id, notes)
  }

  /** What `updateNote` returns: the input re-stamped when its id is stored,
      the input itself otherwise. */
  function UpdatedNote(notes: seq<Note>, note: Note, now: string): (r: Note)
    ensures DataOf(r) == DataOf(note) && r.id == note.id && r.createdAt == note.createdAt
    ensures r.updatedAt == if IndexOfId(notes, note.id).Some? then now else note.updatedAt
  {
    if IndexOfId(notes, note.id).Some? then note.(updatedAt := now) else note
  }

  /** The note list `updateNote` leaves: the first note with the input's id is
      replaced, and nothing else changes. */
  function NotesAfterUpdate(notes: seq<Note>, note: Note, now: string): (r: seq<Note>)
    ensures |r| == |notes|
    ensures match IndexOfId(notes, note.id)
      case None => r == notes
      case Some(i) =>
        && r[i] == UpdatedNote(notes, note, now)
        && forall j :: 0 <= j < |notes| && j != i ==> r[j] == notes[j]
  {
    match IndexOfId(notes, note.id)
    case None => notes
    case Some(i) => notes[i := UpdatedNote(notes, note, now)]
  }

  /** `notes.filter((note) => note.id !== id)`. */
  function WithoutNote(notes: seq<Note>, id: string): (r: seq<Note>)
    ensures forall n :: n in r ==> n in notes && n.id != id
    ensures forall n :: n in notes && n.id != id ==> n in r
    ensures Seqs.IsSubsequence(r, notes)
  {
    Seqs.FilterIsSubsequence((n: Note) => n.id != id, notes);
    Seqs.Filter((n: Note) => n.id != id, notes)
  }

  /** Deleting an id that no note has leaves the list as it is. */
  lemma WithoutAbsentNote(notes: seq<Note>, id: string)
    requires forall j :: 0 <= j < |notes| ==> notes[j].id != id
    ensures WithoutNote(notes, id) == notes
  {
    Seqs.FilterKeepsAll((n: Note) => n.id != id, notes);
  }

  /** The tag names `addTag` treats as the same. */
  predicate SameName(a: string, b: string)
  {
    Text.ToLower(a) == Text.ToLower(b)
  }

  /** `tags.find((tag) => tag.name.toLowerCase() === name.toLowerCase())`:
      the first tag named alike. */
  function TagNamed(tags: seq<Tag>, name: string): (r: Option<Tag>)
    ensures r.Some? ==> r.value in tags && SameName(r.value.name, name)
    ensures r.Some? ==> exists i :: (0 <= i < |tags| && tags[i] == r.value
        && forall j :: 0 <= j < i ==> !SameName(tags[j].name, name))
    ensures r.None? <==> forall t :: t in tags ==> !SameName(t.name, name)
  {
    TagWithKey(tags, Text.ToLower(name))
  }

  function TagWithKey(tags: seq<Tag>, key: string): (r: Option<Tag>)
    ensures r.Some? ==> r.value in tags && Text.ToLower(r.value.name) == key
    ensures r.Some? ==> exists i :: (0 <= i < |tags| && tags[i] == r.value
        && forall j :: 0 <= j < i ==> Text.ToLower(tags[j].name) != key)
    ensures r.None? <==> forall t :: t in tags ==> Text.ToLower(t.name) != key
  {
    Seqs.Find((t: Tag) => Text.ToLower(t.name) == key, tags)
  }

  /** The tag list and the tag `addTag` returns. */
  datatype TagAdded = TagAdded(tags: seq<Tag>, tag: Tag)

  /** `addTag`: reuse the first tag whose name equals `name` ignoring case,
      or append a new tag with exactly `name` and the id `freshId`. */
  function AddTagTo(tags: seq<Tag>, name: string, freshId: string): (r: TagAdded)
    ensures SameName(r.tag.name, name) && r.tag in r.tags
    ensures (exists t :: t in tags && SameName(t.name, name)) ==> r.tags == tags && r.tag in tags
    ensures (exists t :: t in tags && SameName(t.name, name)) ==>
      exists i :: 0 <= i < |tags| && tags[i] == r.tag && forall j :: 0 <= j < i ==> !SameName(tags[j].name, name)
    ensures (forall t :: t in tags ==> !SameName(t.name, name)) ==>
      r.tag == Tag(freshId, name) && r.tags == tags + [r.tag]
  {
    match TagNamed(tags, name)
    case Some(existing) => TagAdded(tags, existing)
    case None => TagAdded(tags + [Tag(freshId, name)], Tag(freshId, name))
  }

  /** Adding a name and then a name equal to it ignoring case returns the same
      tag twice, and the second call leaves the tag list as the first left it. */
  lemma {:induction false} AddTagTwice(tags: seq<Tag>, name1: string, name2: string, id1: string, id2: string)
    requires SameName(name1, name2)
    ensures var first := AddTagTo(tags, name1, id1);
      var second := AddTagTo(first.tags, name2, id2);
      second.tag == first.tag && second.tags == first.tags
  {
    var first := AddTagTo(tags, name1, id1);
    assert TagNamed(tags, name1) == TagNamed(tags, name2);
    match TagNamed(tags, name1)
    case Some(existing) =>
    case None =>
      var extended := tags + [Tag(id1, name1)];
      var p := (t: Tag) => Text.ToLower(t.name) == Text.ToLower(name2);
      var i := Seqs.FindIndex(p, tags);
      assert i.None?;
      assert p(extended[|tags|]);
      assert forall j :: 0 <= j < |tags| ==> extended[j] == tags[j];
      var k := Seqs.FindIndex(p, extended);
      assert k == Some(|tags|);
  }

  /** `deleteTag`'s cascade over the notes: every note loses the tags with
      that id and keeps its other fields, its other tags and its place. */
  function StripTag(notes: seq<Note>, id: string): (r: seq<Note>)
    ensures |r| == |notes|
    ensures forall i :: 0 <= i < |notes| ==> r[i] == notes[i].(tags := WithoutTag(notes[i].tags, id))
  {
    Seqs.Map((n: Note) => n.(tags := WithoutTag(n.tags, id)), notes)
  }

  /** After the cascade no note embeds a tag with the deleted id, and every
      other tag a note had is still there. */
  lemma StripTagRemovesId(notes: seq<Note>, id: string)
    ensures forall i, t :: 0 <= i < |notes| && t in StripTag(notes, id)[i].tags ==> t.id != id
    ensures forall i, t :: 0 <= i < |notes| && t in notes[i].tags && t.id != id ==> t in StripTag(notes, id)[i].tags
  {
  }

  // ----- The browser storage and the operations on it -----

  /** The browser's local storage as the module sees it: the value under the
      notes key and under the tags key (`None` while a key is absent), and
      the sample notes the module built when it loaded. */
  class Store {
    var notes: Option<seq<Note>>
    var tags: Option<seq<Tag>>
    const sampleNotes: seq<Note>

    constructor (storedNotes: Option<seq<Note>>, storedTags: Option<seq<Tag>>, seedStamps: seq<string>)
      requires |seedStamps| == 6
      ensures notes == storedNotes && tags == storedTags
      ensures sampleNotes == SampleNotes(seedStamps)
    {
      notes := storedNotes;
      tags := storedTags;
      sampleNotes := SampleNotes(seedStamps);
    }

    /** The note list `getNotes` reads: the stored one, or the sample notes. */
    function NoteList(): seq<Note>
      reads this
    {
      if notes.Some? then notes.value else sampleNotes
    }

    /** The tag list `getTags` reads: the stored one, or the initial tags. */
    function TagList(): seq<Tag>
      reads this
    {
      if tags.Some? then tags.value else InitialTags
    }

    /** `getNotes`: seeds an absent key with the sample notes; afterwards the
        key holds what was returned, so a second call returns the same list. */
    method GetNotes() returns (r: seq<Note>)
      modifies this
      ensures r == old(NoteList()) && notes == Some(r) && tags == old(tags)
      ensures old(notes).None? ==> r == sampleNotes
      ensures old(notes).Some? ==> notes == old(notes)
    {
      if notes.None? {
        notes := Some(sampleNotes);
        r := sampleNotes;
      } else {
        r := notes.value;
      }
    }

    /** `saveNotes`: overwrites the note key. */
    method SaveNotes(ns: seq<Note>)
      modifies this
      ensures notes == Some(ns) && tags == old(tags)
    {
      notes := Some(ns);
    }

    /** `getTags`: seeds an absent key with the initial tags. */
    method GetTags() returns (r: seq<Tag>)
      modifies this
      ensures r == old(TagList()) && tags == Some(r) && notes == old(notes)
      ensures old(tags).None? ==> r == InitialTags
      ensures old(tags).Some? ==> tags == old(tags)
    {
      if tags.None? {
        tags := Some(InitialTags);
        r := InitialTags;
      } else {
        r := tags.value;
      }
    }

    /** `saveTags`: overwrites the tag key. */
    method SaveTags(ts: seq<Tag>)
      modifies this
      ensures tags == Some(ts) && notes == old(notes)
    {
      tags := Some(ts);
    }

    /** `addNote`: appends exactly one note, built from `data` and the clock
        readings, after all the notes already stored. */
    method AddNote(data: NoteData, id: string, createdAt: string, updatedAt: string) returns (n: Note)
      modifies this
      ensures n == NewNote(data, id, createdAt, updatedAt)
      ensures notes == Some(old(NoteList()) + [n]) && tags == old(tags)
    {
      var ns := GetNotes();
      n := NewNote(data, id, createdAt, updatedAt);
      ns := ns + [n];
      SaveNotes(ns);
    }

    /** `updateNote`: replaces the first stored note with the input's id by
        the input stamped `now`; with no such note it returns the input and
        writes nothing (beyond the seeding a read does). */
    method UpdateNote(note: Note, now: string) returns (r: Note)
      modifies this
      ensures r == UpdatedNote(old(NoteList()), note, now)
      ensures notes == Some(NotesAfterUpdate(old(NoteList()), note, now)) && tags == old(tags)
      ensures IndexOfId(old(NoteList()), note.id).None? ==> r == note && notes == Some(old(NoteList()))
    {
      var ns := GetNotes();
      var index := IndexOfId(ns, note.id);
      if index.Some? {
        r := note.(updatedAt := now);
        ns := ns[index.value := r];
        SaveNotes(ns);
      } else {
        r := note;
      }
    }

    /** `deleteNote`: keeps, in order, the notes whose id differs. */
    method DeleteNote(id: string)
      modifies this
      ensures notes == Some(WithoutNote(old(NoteList()), id)) && tags == old(tags)
    {
      var ns := GetNotes();
      var updatedNotes := WithoutNote(ns, id);
      SaveNotes(updatedNotes);
    }

    /** `addTag`: returns the tag named `name` ignoring case if there is one,
        and otherwise appends and returns a new tag with the id `freshId`. */
    method AddTag(name: string, freshId: string) returns (t: Tag)
      modifies this
      ensures t == AddTagTo(old(TagList()), name, freshId).tag
      ensures tags == Some(AddTagTo(old(TagList()), name, freshId).tags) && notes == old(notes)
    {
      var ts := GetTags();
      var existing := TagNamed(ts, name);
      if existing.Some? {
        return existing.value;
      }
      t := Tag(freshId, name);
      ts := ts + [t];
      SaveTags(ts);
    }

    /** `deleteTag`: removes the tag from the tag list and from every note. */
    method DeleteTag(id: string)
      modifies this
      ensures tags == Some(WithoutTag(old(TagList()), id))
      ensures notes == Some(StripTag(old(NoteList()), id))
    {
      var ts := GetTags();
      var updatedTags := WithoutTag(ts, id);
      SaveTags(updatedTags);
      var ns := GetNotes();
      var updatedNotes := StripTag(ns, id);
      SaveNotes(updatedNotes);
    }
  }

  // ----- Category labels -----

  /** The record of display names. */
  function CategoryNames(c: Category): (name: string)
  {
    match c
    case All => "Semua"
    case Comic => "Komik"
    case Game => "Game"
    case Anime => "Anime"
    case Series => "Film Series"
    case Film => "Film"
    case Others => "Dan Lain-Lain"
    case Notes => "Catatan"
  }

  /** `getCategoryName`: the record's entry, falling back to the category's
      own key when the entry is empty; no entry is, so the fallback is dead. */
  function GetCategoryName(c: Category): (r: string)
    ensures r == CategoryNames(c) && r != ""
  {
    if CategoryNames(c) != "" then CategoryNames(c) else CategoryKey(c)
  }

  /** Distinct categories have distinct display names. */
  lemma CategoryNamesDistinct(a: Category, b: Category)
    ensures GetCategoryName(a) == GetCategoryName(b) <==> a == b
  {
  }

  /** The record of colour classes. */
  function CategoryColors(c: Category): (color: string)
  {
    match c
    case All => "bg-category-all"
    case Comic => "bg-category-comic"
    case Game => "bg-category-game"
    case Anime => "bg-category-anime"
    case Series => "bg-category-series"
    case Film => "bg-category-film"
    case Others => "bg-category-others"
    case Notes => "bg-category-notes"
  }

  /** `getCategoryColor`: the record's entry, or "bg-gray-500" when it is
      empty; every entry is "bg-category-" followed by the category's key. */
  function GetCategoryColor(c: Category): (r: string)
    ensures r == "bg-category-" + CategoryKey(c)
    ensures r != "bg-gray-500"
  {
    if CategoryColors(c) != "" then CategoryColors(c) else "bg-gray-500"
  }
}
