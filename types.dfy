/** The records of the notes app (src/types/index.ts) and the small queries
    on tag lists that several components share. */
module Types {
  import opened Wrappers
  import Seqs

  /** The closed set of categories; `All` is the pseudo-category that only a
      filter uses. */
  datatype Category = All | Comic | Game | Anime | Series | Film | Others | Notes

  /** The string each category is in the TypeScript union type. */
  function CategoryKey(c: Category): (k: string)
    ensures k != ""
  {
    match c
    case All => "all"
    case Comic => "comic"
    case Game => "game"
    case Anime => "anime"
    case Series => "series"
    case Film => "film"
    case Others => "others"
    case Notes => "notes"
  }

  /** A note's rating: one to five stars. */
  type Stars = r: int | 1 <= r <= 5 witness 5

  datatype Tag = Tag(id: string, name: string)

  datatype Note = Note(
    id: string,
    title: string,
    content: string,
    url: Option<string>,
    imageUrl: Option<string>,
    category: Category,
    rating: Stars,
    tags: seq<Tag>,
    createdAt: string,
    updatedAt: string)

  /** What the author of a note edits: a note without its id and timestamps
      (`Omit<Note, "id" | "createdAt" | "updatedAt">`). */
  datatype NoteData = NoteData(
    title: string,
    content: string,
    url: Option<string>,
    imageUrl: Option<string>,
    category: Category,
    rating: Stars,
    tags: seq<Tag>)

  /** The filter the page keeps in memory; `rating` is nullable. */
  datatype Filter = Filter(searchTerm: string, category: Category, rating: Option<int>, tags: seq<string>)

  /** The edited part of a note. */
  function DataOf(n: Note): (d: NoteData)
  {
    NoteData(n.title, n.content, n.url, n.imageUrl, n.category, n.rating, n.tags)
  }

  /** `tags.map(tag => tag.id)`. */
  function TagIds(tags: seq<Tag>): (ids: seq<string>)
    ensures |ids| == |tags| && forall k :: 0 <= k < |tags| ==> ids[k] == tags[k].id
  {
    Seqs.Map((t: Tag) => t.id, tags)
  }

  /** `tags.some(tag => tag.id === id)`. */
  predicate HasTagId(tags: seq<Tag>, id: string)
  {
    id in TagIds(tags)
  }

  lemma HasTagIdIff(tags: seq<Tag>, id: string)
    ensures HasTagId(tags, id) <==> exists k :: 0 <= k < |tags| && tags[k].id == id
  {
    if HasTagId(tags, id) {
      var k :| 0 <= k < |tags| && TagIds(tags)[k] == id;
    }
  }

  /** `tags.filter(tag => tag.id !== id)`, used both when a tag is deleted and
      when it is taken off a note in the form. */
  function WithoutTag(tags: seq<Tag>, id: string): (r: seq<Tag>)
    ensures forall t :: t in r ==> t in tags && t.id != id
    ensures forall t :: t in tags && t.id != id ==> t in r
    ensures Seqs.IsSubsequence(r, tags)
  {
    Seqs.FilterIsSubsequence((t: Tag) => t.id != id, tags);
    Seqs.Filter((t: Tag) => t.id != id, tags)
  }

  /** No two tags of the list share an id. */
  predicate UniqueIds(tags: seq<Tag>)
  {
    forall i, j :: 0 <= i < j < |tags| ==> tags[i].id != tags[j].id
  }

  /** Taking tags out of a list whose ids are unique keeps them unique. */
  lemma WithoutTagKeepsUniqueIds(tags: seq<Tag>, id: string)
    requires UniqueIds(tags)
    ensures UniqueIds(WithoutTag(tags, id))
  {
    FilterKeepsUniqueIds((t: Tag) => t.id != id, tags);
  }

  lemma UniqueIdsTail(tags: seq<Tag>)
    requires tags != [] && UniqueIds(tags)
    ensures UniqueIds(tags[1..])
    ensures forall t :: t in tags[1..] ==> t.id != tags[0].id
  {
    var tail := tags[1..];
    forall i, j | 0 <= i < j < |tail| ensures tail[i].id != tail[j].id {
      assert tail[i] == tags[i + 1] && tail[j] == tags[j + 1];
    }
    forall t | t in tail ensures t.id != tags[0].id {
      var j :| 0 <= j < |tail| && tail[j] == t;
      assert tail[j] == tags[j + 1];
    }
  }

  lemma UniqueIdsCons(t0: Tag, rest: seq<Tag>)
    requires UniqueIds(rest) && forall t :: t in rest ==> t.id != t0.id
    ensures UniqueIds([t0] + rest)
  {
    var r := [t0] + rest;
    forall i, j | 0 <= i < j < |r| ensures r[i].id != r[j].id {
      assert r[j] == rest[j - 1] && rest[j - 1] in rest;
      if i > 0 { assert r[i] == rest[i - 1]; }
    }
  }

  lemma {:induction false} FilterKeepsUniqueIds(keep: Tag -> bool, tags: seq<Tag>)
    requires UniqueIds(tags)
    ensures UniqueIds(Seqs.Filter(keep, tags))
  {
    if tags != [] {
      UniqueIdsTail(tags);
      FilterKeepsUniqueIds(keep, tags[1..]);
      if keep(tags[0]) {
        UniqueIdsCons(tags[0], Seqs.Filter(keep, tags[1..]));
      }
    }
  }
}
