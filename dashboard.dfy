/**
 * The dashboard page: the tag filter over the loaded notes, the "All Notes"
 * count, and the requests the save, edit and delete handlers send.
 *
 * The answers of the server arrive as parameters: a handler that awaits a
 * request is told whether the request resolved, and the notes and tags a
 * refetch loads are delivered by `NotesLoaded` and `TagsLoaded`.
 */
module Dashboard {
  import opened Wrappers
  import opened NoteModel
  import opened ApiClient

  /** A note as the client receives it: the JSON form of a stored note. */
  type Note = NoteDoc

  // ---------------------------------------------------------------------------
  // filteredNotes: `selectedTag ? notes.filter((n) => n.tags.includes(selectedTag)) : notes`

  /** `notes.filter((n) => n.tags.includes(tag))`. */
  function WithTag(notes: seq<Note>, tag: string): (r: seq<Note>)
    ensures |r| <= |notes|
    ensures forall n :: n in r <==> n in notes && tag in n.tags
  {
    if notes == [] then []
    else (if tag in notes[0].tags then [notes[0]] else []) + WithTag(notes[1..], tag)
  }

  /** The notes on screen. A null or empty `selectedTag` is falsy and shows every note. */
  function FilteredNotes(notes: seq<Note>, selectedTag: Option<string>): (r: seq<Note>)
    ensures selectedTag.None? || selectedTag.value == "" ==> r == notes
    ensures selectedTag.Some? && selectedTag.value != "" ==>
              forall n :: n in r <==> n in notes && selectedTag.value in n.tags
  {
    if selectedTag.Some? && selectedTag.value != "" then WithTag(notes, selectedTag.value) else notes
  }

  /** Filtering keeps the order of the notes: it filters each part of a list separately... */
  lemma {:induction false} WithTagConcat(a: seq<Note>, b: seq<Note>, tag: string)
    ensures WithTag(a + b, tag) == WithTag(a, tag) + WithTag(b, tag)
    decreases |a|
  {
    if a == [] {
      assert a + b == b;
    } else {
      assert (a + b)[0] == a[0] && (a + b)[1..] == a[1..] + b;
      WithTagConcat(a[1..], b, tag);
    }
  }

  /** ...and a single note is kept exactly when it carries the tag; with `WithTagConcat`
      this determines the result, so the kept notes stay in their order. */
  lemma WithTagSingle(n: Note, tag: string)
    ensures WithTag([n], tag) == if tag in n.tags then [n] else []
  {
    assert [n][1..] == [];
  }

  /** Selecting the same tag twice changes nothing more. */
  lemma {:induction false} WithTagIdempotent(notes: seq<Note>, tag: string)
    ensures WithTag(WithTag(notes, tag), tag) == WithTag(notes, tag)
    decreases |notes|
  {
    if notes != [] {
      var rest := WithTag(notes[1..], tag);
      WithTagIdempotent(notes[1..], tag);
      if tag in notes[0].tags {
        var kept := [notes[0]] + rest;
        assert WithTag(notes, tag) == kept;
        assert kept != [] && kept[0] == notes[0] && kept[1..] == rest;
        assert WithTag(kept, tag) == [notes[0]] + WithTag(rest, tag);
      } else {
        assert WithTag(notes, tag) == rest;
      }
    }
  }

  // ---------------------------------------------------------------------------
  // The page's state and handlers

  /** The fields the editor hands to `handleSaveNote`. */
  datatype Draft = Draft(title: string, content: string, tags: seq<string>)

  /** The update the server applies for a saved draft: `pinned` is not sent. */
  function DraftUpdate(d: Draft): NoteUpdate {
    NoteUpdate(Some(d.title), Some(d.content), Some(d.tags), None)
  }

  /** The fields `createNote` passes to the schema for a draft. */
  function DraftFields(userId: string, d: Draft): NoteFields {
    NoteFields(userId, Some(d.title), Some(d.content), Some(d.tags))
  }

  /** Saving an edited note keeps its pin and owner and takes every field of the draft; saving
      a new one, when it is valid, gives an unpinned note of the draft's fields. */
  lemma SaveKeepsPin(doc: Note, d: Draft, userId: string, id: string)
    ensures var r := Apply(doc, DraftUpdate(d));
      r.pinned == doc.pinned && r.userId == doc.userId && r.id == doc.id
      && r.title == d.title && r.content == d.content && r.tags == d.tags
    ensures MissingPaths(DraftFields(userId, d)) == [] <==> userId != "" && d.title != ""
    ensures var n := Build(DraftFields(userId, d), id);
      !n.pinned && n.title == d.title && n.content == d.content && n.tags == d.tags
  {
  }

  class Page {
    var notes: seq<Note>
    var tags: seq<string>
    var selectedTag: Option<string>
    var editorOpen: bool
    var editingNote: Option<Note>

    /** The state of a freshly mounted page, before its first fetches answer. */
    constructor ()
      ensures notes == [] && tags == [] && selectedTag.None? && !editorOpen && editingNote.None?
    {
      notes, tags, selectedTag, editorOpen, editingNote := [], [], None, false, None;
    }

    /** The notes listed under the current selection. */
    function Visible(): (r: seq<Note>)
      reads this
      ensures forall n :: n in r ==> n in notes
      ensures selectedTag.None? ==> r == notes
    {
      FilteredNotes(notes, selectedTag)
    }

    /** The number next to "All Notes": every loaded note, whatever the filter. */
    function AllNotesCount(): (r: nat)
      reads this
      ensures r >= |Visible()|
    {
      |notes|
    }

    /** `setNotes(data.notes)` when a `getAllNotes` request answers. */
    method NotesLoaded(loaded: seq<Note>)
      modifies this`notes
      ensures notes == loaded
    {
      notes := loaded;
    }

    /** `setTags(data.tags)` when a `getTags` request answers. */
    method TagsLoaded(loaded: seq<string>)
      modifies this`tags
      ensures tags == loaded
    {
      tags := loaded;
    }

    method SelectTag(tag: Option<string>)
      modifies this`selectedTag
      ensures selectedTag == tag
    {
      selectedTag := tag;
    }

    method HandleEdit(note: Note)
      modifies this`editingNote, this`editorOpen
      ensures editingNote == Some(note) && editorOpen
    {
      editingNote := Some(note);
      editorOpen := true;
    }

    /** `handleSaveNote(draft)`: the requests it sends, in order. The save is an update of the
        note being edited, or a create when there is none. Only when the save resolves
        (`resolved`) do the refetches go out and the editing note get cleared. */
    method HandleSaveNote(draft: Draft, resolved: bool) returns (calls: seq<ClientCall>)
      modifies this`editingNote
      ensures |calls| >= 1
      ensures calls[0] == if old(editingNote).Some? then UpdateNote(old(editingNote).value.id) else CreateNote
      ensures calls[1..] == if resolved then [GetAllNotes, GetTags] else []
      ensures editingNote == if resolved then None else old(editingNote)
    {
      if editingNote.Some? {
        calls := [UpdateNote(editingNote.value.id)];
      } else {
        calls := [CreateNote];
      }
      if resolved {
        calls := calls + [GetAllNotes, GetTags];
        editingNote := None;
      }
    }

    /** `handleDelete(note)`: nothing unless the user confirms; then the delete, and once it
        resolves the refetches. */
    method HandleDelete(note: Note, confirmed: bool, resolved: bool) returns (calls: seq<ClientCall>)
      ensures !confirmed ==> calls == []
      ensures confirmed ==> calls == [DeleteNote(note.id)] + if resolved then [GetAllNotes, GetTags] else []
    {
      if !confirmed {
        return [];
      }
      calls := [DeleteNote(note.id)];
      if resolved {
        calls := calls + [GetAllNotes, GetTags];
      }
    }
  }
}
