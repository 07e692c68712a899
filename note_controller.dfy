/**
 * The note handlers. Each one acts on the notes of the authenticated user
 * only: a note is found, changed or removed only when both its id and its
 * owner match, and another user's note answers exactly as a missing one.
 */
module NoteController {
  import opened Wrappers
  import opened Http
  import opened NoteModel

  /** The JSON bodies the handlers send. */
  datatype NoteBody =
    | NotesBody(notes: seq<NoteDoc>)
    | OneNote(note: NoteDoc)
    | MessageBody(message: string)
    | TagsBody(tags: seq<string>)

  /** Why a handler's promise is rejected; the handlers catch nothing. */
  datatype DbError = ValidationError(message: string) | DuplicateKey

  datatype Reply = Reply(response: Response<NoteBody>) | Rejected(error: DbError)

  const NotFound := "Not found"
  const NoteDeleted := "Note deleted"

  // ---------------------------------------------------------------------------
  // getNotes: `sort({ pinned: -1, updatedAt: -1 })`. No note stores `updatedAt`, so the sort
  // only puts pinned notes first; the order within each group is left to the database.

  /** The notes whose `pinned` flag is `pinned`, in order. */
  function WithPinned(notes: seq<NoteDoc>, pinned: bool): (r: seq<NoteDoc>)
    ensures forall d :: d in r <==> d in notes && d.pinned == pinned
  {
    if notes == [] then []
    else (if notes[0].pinned == pinned then [notes[0]] else []) + WithPinned(notes[1..], pinned)
  }

  lemma {:induction false} WithPinnedSplits(notes: seq<NoteDoc>)
    ensures multiset(WithPinned(notes, true)) + multiset(WithPinned(notes, false)) == multiset(notes)
  {
    if notes != [] {
      WithPinnedSplits(notes[1..]);
      assert notes == [notes[0]] + notes[1..];
    }
  }

  predicate PinnedFirst(notes: seq<NoteDoc>) {
    forall i, j :: 0 <= i < j < |notes| && notes[j].pinned ==> notes[i].pinned
  }

  /** One order the sort may produce: the pinned notes, then the others, each in stored order. */
  function SortPinnedFirst(notes: seq<NoteDoc>): (r: seq<NoteDoc>)
    ensures multiset(r) == multiset(notes)
    ensures PinnedFirst(r)
  {
    WithPinnedSplits(notes);
    var pinned, rest := WithPinned(notes, true), WithPinned(notes, false);
    assert forall k :: 0 <= k < |pinned| ==> pinned[k] in pinned;
    assert forall k :: 0 <= k < |rest| ==> rest[k] in rest;
    pinned + rest
  }

  /** `getNotes`: the requester's notes and no other, pinned ones first. */
  method GetNotes(store: NoteCollection, userId: string) returns (res: Response<NoteBody>)
    ensures res.status == 200 && res.body.NotesBody?
    ensures multiset(res.body.notes) == multiset(Owned(store.docs, userId))
    ensures PinnedFirst(res.body.notes)
  {
    var notes := store.Find(userId);
    res := Response(200, NotesBody(SortPinnedFirst(notes)));
  }

  // ---------------------------------------------------------------------------
  // The handlers on one note

  /** `getNoteById`. */
  method GetNoteById(store: NoteCollection, userId: string, id: string) returns (res: Response<NoteBody>)
    ensures FindNote(store.docs, id, userId).None? ==> res == Response(404, MessageBody(NotFound))
    ensures FindNote(store.docs, id, userId).Some? ==>
              res == Response(200, OneNote(FindNote(store.docs, id, userId).value))
    ensures res.status == 200 ==>
              (res.body.OneNote? && res.body.note in store.docs && res.body.note.id == id
               && res.body.note.userId == userId)
  {
    var note := store.FindOne(id, userId);
    if note.None? {
      return Response(404, MessageBody(NotFound));
    }
    res := Response(200, OneNote(note.value));
  }

  /** The request body of `createNote`; `None` stands for undefined. */
  datatype CreateBody = CreateBody(userId: Option<string>, title: Option<string>, content: Option<string>,
                                   tags: Option<seq<string>>, pinned: Option<bool>)

  /** `createNote` with `newId` the ObjectId the driver assigns. Only `title`, `content` and `tags`
      are taken from the body: the owner is the authenticated user and the note is unpinned,
      whatever the body says. */
  method CreateNote(store: NoteCollection, userId: string, body: CreateBody, newId: string) returns (reply: Reply)
    requires store.Valid()
    modifies store
    ensures store.Valid()
    ensures var fields := NoteFields(userId, body.title, body.content, body.tags);
      && (MissingPaths(fields) != [] ==>
            reply == Rejected(ValidationError(ValidationMessage(MissingPaths(fields))))
            && store.docs == old(store.docs))
      && (MissingPaths(fields) == [] && newId in old(Ids(store.docs)) ==>
            reply == Rejected(DuplicateKey) && store.docs == old(store.docs))
      && (MissingPaths(fields) == [] && newId !in old(Ids(store.docs)) ==>
            var note := Build(fields, newId);
            && note.userId == userId && !note.pinned
            && reply == Reply(Response(201, OneNote(note)))
            && store.docs == old(store.docs) + [note])
  {
    var created := store.Create(NoteFields(userId, body.title, body.content, body.tags), newId);
    match created {
      case Created(note) => reply := Reply(Response(201, OneNote(note)));
      case Invalid(paths) => reply := Rejected(ValidationError(ValidationMessage(paths)));
      case DuplicateId => reply := Rejected(DuplicateKey);
    }
  }

  /** `updateNote`: `title`, `content`, `tags` and `pinned` from the body, the undefined ones
      left as they are. The note returned is the note after the update. */
  method UpdateNote(store: NoteCollection, userId: string, id: string, body: NoteUpdate)
      returns (res: Response<NoteBody>)
    requires store.Valid()
    modifies store
    ensures store.Valid()
    ensures old(FindNote(store.docs, id, userId)).None? ==>
              res == Response(404, MessageBody(NotFound)) && store.docs == old(store.docs)
    ensures old(FindNote(store.docs, id, userId)).Some? ==>
              var k := old(Locate(store.docs, id, userId)).value;
              var note := Apply(old(store.docs[k]), body);
              && res == Response(200, OneNote(note))
              && store.docs == old(store.docs)[k := note]
  {
    var note := store.FindOneAndUpdate(id, userId, body);
    if note.None? {
      return Response(404, MessageBody(NotFound));
    }
    res := Response(200, OneNote(note.value));
  }

  /** `deleteNote`. */
  method DeleteNote(store: NoteCollection, userId: string, id: string) returns (res: Response<NoteBody>)
    requires store.Valid()
    modifies store
    ensures store.Valid()
    ensures old(FindNote(store.docs, id, userId)).None? ==>
              res == Response(404, MessageBody(NotFound)) && store.docs == old(store.docs)
    ensures old(FindNote(store.docs, id, userId)).Some? ==>
              var k := old(Locate(store.docs, id, userId)).value;
              && res == Response(200, MessageBody(NoteDeleted))
              && store.docs == old(store.docs[..k] + store.docs[k + 1..])
  {
    var note := store.FindOneAndDelete(id, userId);
    if note.None? {
      return Response(404, MessageBody(NotFound));
    }
    res := Response(200, MessageBody(NoteDeleted));
  }

  // ---------------------------------------------------------------------------
  // getTags: every tag of every note of the requester, added in turn to a Set, whose array
  // form keeps insertion order.

  /** The tags of `notes`, note by note, repetitions included. */
  function AllTags(notes: seq<NoteDoc>): (r: seq<string>)
    ensures forall t :: t in r <==> exists d :: d in notes && t in d.tags
    decreases |notes|
  {
    if notes == [] then []
    else
      var init := notes[..|notes| - 1];
      var r := AllTags(init) + notes[|notes| - 1].tags;
      assert forall d :: d in notes <==> d in init || d == notes[|notes| - 1];
      r
  }

  /** `s` without repetitions, each element kept where it first occurs. */
  function Dedup(s: seq<string>): seq<string>
    decreases |s|
  {
    if s == [] then []
    else
      var d := Dedup(s[..|s| - 1]);
      if s[|s| - 1] in d then d else d + [s[|s| - 1]]
  }

  predicate NoDup(s: seq<string>) {
    forall i, j :: 0 <= i < j < |s| ==> s[i] != s[j]
  }

  /** The index of the first occurrence of `x` in `s`. */
  function FirstIndex(s: seq<string>, x: string): (i: nat)
    requires x in s
    ensures i < |s| && s[i] == x && x !in s[..i]
  {
    if s[0] == x then 0 else 1 + FirstIndex(s[1..], x)
  }

  lemma FirstIndexAppend(s: seq<string>, y: string, x: string)
    requires x in s
    ensures FirstIndex(s + [y], x) == FirstIndex(s, x)
  {
    if s[0] != x {
      assert (s + [y])[1..] == s[1..] + [y];
      FirstIndexAppend(s[1..], y, x);
    }
  }

  lemma DedupSnoc(s: seq<string>, x: string)
    ensures Dedup(s + [x]) == if x in Dedup(s) then Dedup(s) else Dedup(s) + [x]
  {
    assert (s + [x])[..|s|] == s;
  }

  lemma DedupPrefixStep(seen: seq<string>, ts: seq<string>, j: nat)
    requires j < |ts|
    ensures var d := Dedup(seen + ts[..j]);
      Dedup(seen + ts[..j + 1]) == if ts[j] in d then d else d + [ts[j]]
  {
    assert seen + ts[..j + 1] == (seen + ts[..j]) + [ts[j]];
    DedupSnoc(seen + ts[..j], ts[j]);
  }

  lemma AllTagsSnoc(notes: seq<NoteDoc>, i: nat)
    requires i < |notes|
    ensures AllTags(notes[..i + 1]) == AllTags(notes[..i]) + notes[i].tags
  {
    assert notes[..i + 1][..i] == notes[..i];
  }

  /** Dedup keeps exactly the elements of its input, once each, in the order of their first
      occurrences. */
  lemma {:induction false} DedupIsFirstOccurrences(s: seq<string>)
    ensures forall x :: x in Dedup(s) <==> x in s
    ensures NoDup(Dedup(s))
    ensures forall i, j :: 0 <= i < j < |Dedup(s)| ==> FirstIndex(s, Dedup(s)[i]) < FirstIndex(s, Dedup(s)[j])
    decreases |s|
  {
    if s != [] {
      var init, x := s[..|s| - 1], s[|s| - 1];
      assert s == init + [x];
      DedupIsFirstOccurrences(init);
      var d := Dedup(init);
      forall y | y in init
        ensures FirstIndex(s, y) == FirstIndex(init, y)
      {
        FirstIndexAppend(init, x, y);
      }
      if x !in d {
        assert FirstIndex(s, x) == |init|;
        assert forall k :: 0 <= k < |d| ==> d[k] in init;
      }
    }
  }

  /** The tag list `getTags` answers with for these notes. */
  function UniqueTags(notes: seq<NoteDoc>): seq<string> {
    Dedup(AllTags(notes))
  }

  /** `getTags`. */
  method GetTags(store: NoteCollection, userId: string) returns (res: Response<NoteBody>)
    ensures res == Response(200, TagsBody(UniqueTags(Owned(store.docs, userId))))
    ensures NoDup(res.body.tags)
    ensures forall t :: t in res.body.tags <==> exists d :: d in store.docs && d.userId == userId && t in d.tags
  {
    var notes := store.Find(userId);
    var tags: seq<string> := [];
    var i := 0;
    while i < |notes|
      invariant 0 <= i <= |notes|
      invariant tags == Dedup(AllTags(notes[..i]))
    {
      tags := AddTags(tags, AllTags(notes[..i]), notes[i].tags);
      AllTagsSnoc(notes, i);
      i := i + 1;
    }
    assert notes[..i] == notes;
    UniqueTagsOfOwner(store.docs, userId);
    res := Response(200, TagsBody(tags));
  }

  /** The inner `note.tags.forEach(tag => tagsSet.add(tag))`: `tags` is the insertion-ordered
      set built from `seen` so far, and each tag of the note is added unless it is there. */
  method AddTags(tags: seq<string>, ghost seen: seq<string>, noteTags: seq<string>) returns (r: seq<string>)
    requires tags == Dedup(seen)
    ensures r == Dedup(seen + noteTags)
  {
    r := tags;
    assert seen + noteTags[..0] == seen;
    var j := 0;
    while j < |noteTags|
      invariant 0 <= j <= |noteTags|
      invariant r == Dedup(seen + noteTags[..j])
    {
      DedupPrefixStep(seen, noteTags, j);
      if noteTags[j] !in r {
        r := r + [noteTags[j]];
      }
      j := j + 1;
    }
    assert noteTags[..j] == noteTags;
  }

  /** The owner's tag list holds each tag of the owner's notes once, and nothing else. */
  lemma UniqueTagsOfOwner(docs: seq<NoteDoc>, userId: string)
    ensures NoDup(UniqueTags(Owned(docs, userId)))
    ensures forall t :: t in UniqueTags(Owned(docs, userId)) <==> exists d :: d in docs && d.userId == userId && t in d.tags
  {
    DedupIsFirstOccurrences(AllTags(Owned(docs, userId)));
  }

  // ---------------------------------------------------------------------------
  // Owner scoping

  lemma {:induction false} OwnedConcat(a: seq<NoteDoc>, b: seq<NoteDoc>, userId: string)
    ensures Owned(a + b, userId) == Owned(a, userId) + Owned(b, userId)
    decreases |a|
  {
    if a != [] {
      OwnedConcat(a[1..], b, userId);
      var head := if a[0].userId == userId then [a[0]] else [];
      assert (a + b)[0] == a[0] && (a + b)[1..] == a[1..] + b;
      assert Owned(a + b, userId) == head + Owned(a[1..] + b, userId);
      assert Owned(a, userId) == head + Owned(a[1..], userId);
    } else {
      assert a + b == b;
    }
  }

  /** What a user can learn from the note handlers depends only on that user's notes: two stores
      that hold the same notes of `userId` answer every lookup, listing and tag query alike. */
  lemma OnlyOwnNotesMatter(docs1: seq<NoteDoc>, docs2: seq<NoteDoc>, userId: string)
    requires Owned(docs1, userId) == Owned(docs2, userId)
    ensures forall id :: FindNote(docs1, id, userId) == FindNote(docs2, id, userId)
    ensures SortPinnedFirst(Owned(docs1, userId)) == SortPinnedFirst(Owned(docs2, userId))
    ensures UniqueTags(Owned(docs1, userId)) == UniqueTags(Owned(docs2, userId))
  {
    forall id
      ensures FindNote(docs1, id, userId) == FindNote(docs2, id, userId)
    {
      LocateIsFindInOwned(docs1, id, userId);
      LocateIsFindInOwned(docs2, id, userId);
    }
  }

  /** Adding another user's note changes nothing the requester can see: their note answers as a
      missing one. */
  lemma OthersNotesAreInvisible(docs: seq<NoteDoc>, other: NoteDoc, userId: string)
    requires other.userId != userId
    ensures Owned(docs + [other], userId) == Owned(docs, userId)
    ensures FindNote(docs + [other], other.id, userId) == FindNote(docs, other.id, userId)
  {
    OwnedConcat(docs, [other], userId);
    assert Owned([other], userId) == [];
    assert Owned(docs, userId) + [] == Owned(docs, userId);
    OnlyOwnNotesMatter(docs + [other], docs, userId);
  }
}
