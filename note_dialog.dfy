/** The form state of src/components/NoteDialog.tsx: eight fields that the
    reset effect and the handlers reassign, the validation on save, and the
    selection of tags. */
module NoteDialog {
  import opened Wrappers
  import opened Types
  import Seqs
  import Text

  /** `value || ""`: an absent optional field shows as an empty input. */
  function OrEmpty(o: Option<string>): (s: string)
    ensures o.Some? ==> s == o.value
    ensures o.None? ==> s == ""
  {
    if o.Some? then o.value else ""
  }

  /** `value || undefined`: an empty input is saved as an absent field. */
  function EmptyToNone(s: string): (o: Option<string>)
    ensures o.None? <==> s == ""
    ensures o.Some? ==> o.value == s
  {
    if s == "" then None else Some(s)
  }

  /** An input shown from a field is saved back as that field, unless the
      field held the empty string, which comes back absent. */
  lemma OptionalFieldRoundTrip(o: Option<string>, s: string)
    ensures EmptyToNone(OrEmpty(o)) == if o == Some("") then None else o
    ensures OrEmpty(EmptyToNone(s)) == s
  {
  }

  /** `tags.find(tag => tag.id === id)`: the first tag with the id. */
  function TagById(tags: seq<Tag>, id: string): (r: Option<Tag>)
    ensures r.Some? ==> r.value in tags && r.value.id == id
    ensures r.Some? ==> exists i :: 0 <= i < |tags| && tags[i] == r.value && forall j :: 0 <= j < i ==> tags[j].id != id
    ensures r.None? <==> !HasTagId(tags, id)
  {
    HasTagIdIff(tags, id);
    Seqs.Find((t: Tag) => t.id == id, tags)
  }

  class Form {
    var title: string
    var content: string
    var url: string
    var imageUrl: string
    var category: Category
    var rating: Stars
    var selectedTags: seq<Tag>
    var newTagInput: string

    /** The initial values of the eight `useState` hooks. */
    constructor ()
      ensures title == "" && content == "" && url == "" && imageUrl == ""
      ensures category == Notes && rating == 5 && selectedTags == [] && newTagInput == ""
    {
      title, content, url, imageUrl := "", "", "", "";
      category, rating := Notes, 5;
      selectedTags, newTagInput := [], "";
    }

    /** The reset effect, run when the dialog opens or its note changes: a
        closed dialog keeps its state; an open one shows the note's fields,
        or the defaults when there is no note, and an empty tag input. */
    method ResetOnOpen(open: bool, note: Option<Note>)
      modifies this
      ensures !open ==> unchanged(this)
      ensures open && note.Some? ==>
        && title == note.value.title && content == note.value.content
        && url == OrEmpty(note.value.url) && imageUrl == OrEmpty(note.value.imageUrl)
        && category == note.value.category && rating == note.value.rating
        && selectedTags == note.value.tags
      ensures open && note.None? ==>
        && title == "" && content == "" && url == "" && imageUrl == ""
        && category == Notes && rating == 5 && selectedTags == []
      ensures open ==> newTagInput == ""
    {
      if open {
        match note {
          case Some(n) =>
            title, content := n.title, n.content;
            url, imageUrl := OrEmpty(n.url), OrEmpty(n.imageUrl);
            category, rating := n.category, n.rating;
            selectedTags := n.tags;
          case None =>
            title, content, url, imageUrl := "", "", "", "";
            category, rating := Notes, 5;
            selectedTags := [];
        }
        newTagInput := "";
      }
    }

    /** `handleSave`: with a title that is all white space nothing is saved
        and the dialog stays open; otherwise the form is saved once (empty
        links as absent, the title untrimmed) and then the dialog closes.
        `saved` is what reaches `onSave`, `closes` whether
        `onOpenChange(false)` is called. */
    method HandleSave() returns (saved: Option<NoteData>, closes: bool)
      ensures saved.None? <==> forall k :: 0 <= k < |title| ==> Text.IsSpace(title[k])
      ensures closes <==> saved.Some?
      ensures saved.Some? ==>
        saved.value == NoteData(title, content, EmptyToNone(url), EmptyToNone(imageUrl), category, rating, selectedTags)
    {
      if Text.Trim(title) == "" {
        return None, false;
      }
      saved := Some(NoteData(title, content, EmptyToNone(url), EmptyToNone(imageUrl), category, rating, selectedTags));
      closes := true;
    }

    /** `handleAddTag`: a blank input does nothing; otherwise the trimmed
        name goes to `onAddTag`, the tag it answers is selected unless a tag
        with its id already is, and the input is cleared. */
    method HandleAddTag(onAddTag: string -> Tag)
      modifies this
      ensures var name := Text.Trim(old(newTagInput));
        if name == "" then unchanged(this)
        else
          var t := onAddTag(name);
          && selectedTags == (if HasTagId(old(selectedTags), t.id) then old(selectedTags) else old(selectedTags) + [t])
          && newTagInput == ""
          && title == old(title) && content == old(content) && url == old(url) && imageUrl == old(imageUrl)
          && category == old(category) && rating == old(rating)
      ensures old(UniqueIds(selectedTags)) ==> UniqueIds(selectedTags)
    {
      var name := Text.Trim(newTagInput);
      if name != "" {
        var newTag := onAddTag(name);
        if !HasTagId(selectedTags, newTag.id) {
          HasTagIdIff(selectedTags, newTag.id);
          selectedTags := selectedTags + [newTag];
        }
        newTagInput := "";
      }
    }

    /** `handleRemoveTag`: the selected tags without those with the id. */
    method HandleRemoveTag(tagId: string)
      modifies this`selectedTags
      ensures selectedTags == WithoutTag(old(selectedTags), tagId)
      ensures old(UniqueIds(selectedTags)) ==> UniqueIds(selectedTags)
    {
      if UniqueIds(selectedTags) {
        WithoutTagKeepsUniqueIds(selectedTags, tagId);
      }
      selectedTags := WithoutTag(selectedTags, tagId);
    }

    /** `handleSelectExistingTag`: selects the available tag with the id, if
        there is one and no selected tag has that id yet. */
    method HandleSelectExistingTag(availableTags: seq<Tag>, tagId: string)
      modifies this`selectedTags
      ensures var found := TagById(availableTags, tagId);
        selectedTags ==
          if found.Some? && !HasTagId(old(selectedTags), tagId) then old(selectedTags) + [found.value]
          else old(selectedTags)
      ensures old(UniqueIds(selectedTags)) ==> UniqueIds(selectedTags)
    {
      var tag := TagById(availableTags, tagId);
      if tag.Some? && !HasTagId(selectedTags, tag.value.id) {
        HasTagIdIff(selectedTags, tag.value.id);
        selectedTags := selectedTags + [tag.value];
      }
    }

    /** The tags the "select existing tag" list offers: the available ones
        whose id is not selected, in their order. */
    function SelectableTags(availableTags: seq<Tag>): (r: seq<Tag>)
      reads this
      ensures forall t :: t in r <==> t in availableTags && !HasTagId(selectedTags, t.id)
      ensures Seqs.IsSubsequence(r, availableTags)
    {
      var selected := selectedTags;
      Seqs.FilterIsSubsequence((t: Tag) => !HasTagId(selected, t.id), availableTags);
      Seqs.Filter((t: Tag) => !HasTagId(selected, t.id), availableTags)
    }

    method SetTitle(s: string)
      modifies this`title
      ensures title == s
    {
      title := s;
    }

    method SetContent(s: string)
      modifies this`content
      ensures content == s
    {
      content := s;
    }

    method SetUrl(s: string)
      modifies this`url
      ensures url == s
    {
      url := s;
    }

    method SetImageUrl(s: string)
      modifies this`imageUrl
      ensures imageUrl == s
    {
      imageUrl := s;
    }

    method SetCategory(c: Category)
      modifies this`category
      ensures category == c
    {
      category := c;
    }

    method SetRating(r: Stars)
      modifies this`rating
      ensures rating == r
    {
      rating := r;
    }

    method SetNewTagInput(s: string)
      modifies this`newTagInput
      ensures newTagInput == s
    {
      newTagInput := s;
    }
  }
}
