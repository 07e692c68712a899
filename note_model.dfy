/**
 * The Note schema and the collection it backs: `userId` and `title` are
 * required, `content`, `tags` and `pinned` have defaults, `_id` is unique, and
 * no timestamps are stored.
 */
module NoteModel {
  import opened Wrappers
  import Validation

  /** A stored note. There is no `createdAt` or `updatedAt`: the schema does not ask for them. */
  datatype NoteDoc = NoteDoc(id: string, userId: string, title: string, content: string,
                             tags: seq<string>, pinned: bool)

  /** The fields passed to `Note.create`; `None` stands for undefined. */
  datatype NoteFields = NoteFields(userId: string, title: Option<string>, content: Option<string>,
                                   tags: Option<seq<string>>)

  /** The update document `{ title, content, tags, pinned }`. Mongoose drops the keys whose
      value is undefined (`None`) before sending it. */
  datatype NoteUpdate = NoteUpdate(title: Option<string>, content: Option<string>,
                                   tags: Option<seq<string>>, pinned: Option<bool>)

  /** What `Note.create` does with one document. */
  datatype CreateResult =
    | Created(doc: NoteDoc)
    /** The `required` validators of these paths failed, in schema order. */
    | Invalid(paths: seq<string>)
    /** The unique index on `_id` refused the insert. */
    | DuplicateId

  /** The paths whose `required` validator fails: a missing string is an empty one. */
  function MissingPaths(fields: NoteFields): (r: seq<string>)
    ensures r == [] <==> fields.userId != "" && fields.title.Some? && fields.title.value != ""
    ensures "userId" in r <==> fields.userId == ""
    ensures "title" in r <==> fields.title.None? || fields.title.value == ""
  {
    (if fields.userId == "" then ["userId"] else [])
    + (if fields.title.None? || fields.title.value == "" then ["title"] else [])
  }

  function ValidationMessage(paths: seq<string>): string {
    Validation.ValidationMessage("Note", paths)
  }

  /** The document the schema builds from `fields`: the given values, and the defaults `''`,
      `[]` and `false` for whatever is undefined. `pinned` is not among the fields, so a new
      note is never pinned. */
  function Build(fields: NoteFields, id: string): (d: NoteDoc)
    requires fields.title.Some?
    ensures d.id == id && d.userId == fields.userId && d.title == fields.title.value
    ensures d.content == (if fields.content.Some? then fields.content.value else "")
    ensures d.tags == (if fields.tags.Some? then fields.tags.value else [])
    ensures !d.pinned
  {
    NoteDoc(id, fields.userId, fields.title.value, fields.content.GetOr(""), fields.tags.GetOr([]), false)
  }

  /** `$set` of the defined keys of `upd`. No validator runs, so an empty title is stored. */
  function Apply(doc: NoteDoc, upd: NoteUpdate): (r: NoteDoc)
    ensures r.id == doc.id && r.userId == doc.userId
    ensures r.title == (if upd.title.Some? then upd.title.value else doc.title)
    ensures r.content == (if upd.content.Some? then upd.content.value else doc.content)
    ensures r.tags == (if upd.tags.Some? then upd.tags.value else doc.tags)
    ensures r.pinned == (if upd.pinned.Some? then upd.pinned.value else doc.pinned)
  {
    doc.(title := upd.title.GetOr(doc.title), content := upd.content.GetOr(doc.content),
         tags := upd.tags.GetOr(doc.tags), pinned := upd.pinned.GetOr(doc.pinned))
  }

  /** An update that names no field leaves the note as it is; applying an update twice is
      applying it once. */
  lemma ApplyLaws(doc: NoteDoc, upd: NoteUpdate)
    ensures Apply(doc, NoteUpdate(None, None, None, None)) == doc
    ensures Apply(Apply(doc, upd), upd) == Apply(doc, upd)
  {
  }

  /** Where the first note with this id and this owner is. */
  function Locate(docs: seq<NoteDoc>, id: string, userId: string): (r: Option<nat>)
    ensures r.None? <==> forall k :: 0 <= k < |docs| ==> !(docs[k].id == id && docs[k].userId == userId)
    ensures r.Some? ==> r.value < |docs| && docs[r.value].id == id && docs[r.value].userId == userId
  {
    if docs == [] then None
    else if docs[0].id == id && docs[0].userId == userId then Some(0)
    else
      var r := Locate(docs[1..], id, userId);
      assert forall k :: 1 <= k < |docs| ==> docs[k] == docs[1..][k - 1];
      if r.None? then None else Some(r.value + 1)
  }

  /** The notes of `userId`, in stored order: what `Note.find({ userId })` yields. */
  function Owned(docs: seq<NoteDoc>, userId: string): (r: seq<NoteDoc>)
    ensures |r| <= |docs|
    ensures forall d :: d in r <==> d in docs && d.userId == userId
  {
    if docs == [] then []
    else (if docs[0].userId == userId then [docs[0]] else []) + Owned(docs[1..], userId)
  }

  /** The first note of `notes` with this id. */
  function FindById(notes: seq<NoteDoc>, id: string): (r: Option<NoteDoc>)
    ensures r.Some? ==> r.value in notes && r.value.id == id
    ensures r.None? ==> forall d :: d in notes ==> d.id != id
  {
    if notes == [] then None
    else if notes[0].id == id then Some(notes[0])
    else FindById(notes[1..], id)
  }

  /** The first note with this id and this owner. */
  function FindNote(docs: seq<NoteDoc>, id: string, userId: string): (r: Option<NoteDoc>)
    ensures r.Some? <==> exists k :: 0 <= k < |docs| && docs[k].id == id && docs[k].userId == userId
    ensures r.Some? ==> r.value in docs && r.value.id == id && r.value.userId == userId
  {
    var k := Locate(docs, id, userId);
    if k.Some? then Some(docs[k.value]) else None
  }

  /** Looking a note up by id and owner is looking it up by id among the owner's notes. */
  lemma {:induction false} LocateIsFindInOwned(docs: seq<NoteDoc>, id: string, userId: string)
    ensures FindNote(docs, id, userId) == FindById(Owned(docs, userId), id)
  {
    if docs != [] {
      var owned := Owned(docs, userId);
      var tail := Owned(docs[1..], userId);
      if docs[0].id == id && docs[0].userId == userId {
        assert owned == [docs[0]] + tail;
      } else {
        LocateIsFindInOwned(docs[1..], id, userId);
        var k := Locate(docs[1..], id, userId);
        assert Locate(docs, id, userId) == if k.Some? then Some(k.value + 1) else None;
        assert k.Some? ==> docs[1..][k.value] == docs[k.value + 1];
        if docs[0].userId == userId {
          assert owned == [docs[0]] + tail;
          assert FindById(owned, id) == FindById(tail, id) by {
            assert owned[0].id != id && owned[1..] == tail;
          }
        } else {
          assert owned == tail;
        }
      }
    }
  }

  ghost predicate UniqueIds(docs: seq<NoteDoc>) {
    forall i, j :: 0 <= i < j < |docs| ==> docs[i].id != docs[j].id
  }

  function Ids(docs: seq<NoteDoc>): (r: set<string>)
    ensures forall id :: id in r <==> exists k :: 0 <= k < |docs| && docs[k].id == id
  {
    set k | 0 <= k < |docs| :: docs[k].id
  }

  class NoteCollection {
    var docs: seq<NoteDoc>

    ghost predicate Valid()
      reads this
    {
      UniqueIds(docs)
    }

    constructor ()
      ensures Valid() && docs == []
    {
      docs := [];
    }

    /** `Note.find({ userId })`, in stored order. */
    function Find(userId: string): (r: seq<NoteDoc>)
      reads this
      ensures forall d :: d in r <==> d in docs && d.userId == userId
    {
      Owned(docs, userId)
    }

    /** `Note.findOne({ _id: id, userId })`. */
    function FindOne(id: string, userId: string): (r: Option<NoteDoc>)
      reads this
      ensures r.Some? <==> exists k :: 0 <= k < |docs| && docs[k].id == id && docs[k].userId == userId
      ensures r.Some? ==> r.value in docs && r.value.id == id && r.value.userId == userId
    {
      FindNote(docs, id, userId)
    }

    /** `Note.create(fields)` with `id` the new ObjectId: defaults, `required` validators, then
        the unique index on `_id`. */
    method Create(fields: NoteFields, id: string) returns (r: CreateResult)
      requires Valid()
      modifies this
      ensures Valid()
      ensures MissingPaths(fields) != [] ==> r == Invalid(MissingPaths(fields)) && docs == old(docs)
      ensures MissingPaths(fields) == [] && id in old(Ids(docs)) ==> r == DuplicateId && docs == old(docs)
      ensures MissingPaths(fields) == [] && id !in old(Ids(docs)) ==>
                r == Created(Build(fields, id)) && docs == old(docs) + [Build(fields, id)]
    {
      var missing := MissingPaths(fields);
      if missing != [] {
        return Invalid(missing);
      }
      if id in Ids(docs) {
        return DuplicateId;
      }
      var doc := Build(fields, id);
      docs := docs + [doc];
      r := Created(doc);
    }

    /** `Note.findOneAndUpdate({ _id: id, userId }, upd, { new: true })`: the updated note, or
        `None` with nothing changed when no note has this id and owner. */
    method FindOneAndUpdate(id: string, userId: string, upd: NoteUpdate) returns (r: Option<NoteDoc>)
      requires Valid()
      modifies this
      ensures Valid()
      ensures old(FindOne(id, userId)).None? ==> r.None? && docs == old(docs)
      ensures old(FindOne(id, userId)).Some? ==>
                var k := old(Locate(docs, id, userId)).value;
                r == Some(Apply(old(docs[k]), upd)) && docs == old(docs)[k := r.value]
    {
      var k := Locate(docs, id, userId);
      if k.None? {
        return None;
      }
      var updated := Apply(docs[k.value], upd);
      docs := docs[k.value := updated];
      r := Some(updated);
    }

    /** `Note.findOneAndDelete({ _id: id, userId })`: the removed note, or `None` with nothing
        changed. */
    method FindOneAndDelete(id: string, userId: string) returns (r: Option<NoteDoc>)
      requires Valid()
      modifies this
      ensures Valid()
      ensures old(FindOne(id, userId)).None? ==> r.None? && docs == old(docs)
      ensures old(FindOne(id, userId)).Some? ==>
                var k := old(Locate(docs, id, userId)).value;
                r == Some(old(docs[k])) && docs == old(docs[..k] + docs[k + 1..])
    {
      var k := Locate(docs, id, userId);
      if k.None? {
        return None;
      }
      r := Some(docs[k.value]);
      DeleteKeepsUniqueIds(docs, k.value);
      docs := docs[..k.value] + docs[k.value + 1..];
    }
  }

  lemma DeleteKeepsUniqueIds(docs: seq<NoteDoc>, k: nat)
    requires UniqueIds(docs) && k < |docs|
    ensures UniqueIds(docs[..k] + docs[k + 1..])
  {
    var rest := docs[..k] + docs[k + 1..];
    forall i, j | 0 <= i < j < |rest|
      ensures rest[i].id != rest[j].id
    {
      var i' := if i < k then i else i + 1;
      var j' := if j < k then j else j + 1;
      assert rest[i] == docs[i'] && rest[j] == docs[j'];
    }
  }
}
