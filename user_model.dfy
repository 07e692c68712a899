/**
 * The User schema and the collection it backs: `name`, `email` and `password`
 * are required, the email is unique, lower-cased and trimmed, and timestamps
 * are recorded.
 */
module UserModel {
  import opened Wrappers
  import JsString
  import Validation

  /** A stored user; `password` holds the bcrypt hash. */
  datatype UserDoc = UserDoc(id: string, name: string, email: string, password: string,
                             createdAt: int, updatedAt: int)

  /** What `User.create` does with one document. */
  datatype CreateResult =
    | Created(doc: UserDoc)
    /** The `required` validators of these paths failed, in schema order. */
    | Invalid(paths: seq<string>)
    /** The unique index on `email` refused the insert. */
    | DuplicateEmail

  /** The `lowercase` and `trim` setters of the email path. Mongoose runs them on the value it
      saves and on a query filter for that path alike. */
  function NormalizeEmail(email: string): string {
    JsString.Trim(JsString.ToLower(email))
  }

  /** Lower-casing before the lookup changes nothing the setters would not do themselves. */
  lemma NormalizeLowered(email: string)
    ensures NormalizeEmail(JsString.ToLower(email)) == NormalizeEmail(email)
  {
    JsString.ToLowerIdempotent(email);
  }

  predicate UniqueEmails(docs: seq<UserDoc>) {
    forall i, j :: 0 <= i < j < |docs| ==> docs[i].email != docs[j].email
  }

  /** The first document whose stored email is `email`. */
  function FindByEmail(docs: seq<UserDoc>, email: string): (r: Option<UserDoc>)
    ensures r.Some? <==> exists i :: 0 <= i < |docs| && docs[i].email == email
    ensures r.Some? ==> r.value in docs && r.value.email == email
  {
    if docs == [] then None
    else if docs[0].email == email then Some(docs[0])
    else
      var r := FindByEmail(docs[1..], email);
      assert forall i :: 1 <= i < |docs| ==> docs[i] == docs[1..][i - 1];
      r
  }

  /** The paths whose `required` validator fails: a missing string is an empty one. */
  function MissingPaths(name: string, email: string, password: string): (r: seq<string>)
    ensures r == [] <==> name != "" && email != "" && password != ""
  {
    (if name == "" then ["name"] else [])
    + (if email == "" then ["email"] else [])
    + (if password == "" then ["password"] else [])
  }

  /** Mongoose's message for failed `required` validators of the User model. */
  function ValidationMessage(paths: seq<string>): string {
    Validation.ValidationMessage("User", paths)
  }

  /** What the schema guarantees of every stored user. */
  ghost predicate WellFormed(docs: seq<UserDoc>) {
    && UniqueEmails(docs)
    && forall i :: 0 <= i < |docs| ==>
         && docs[i].name != "" && docs[i].email != "" && docs[i].password != ""
         && docs[i].email == NormalizeEmail(docs[i].email)
         && docs[i].createdAt == docs[i].updatedAt
  }

  lemma AppendKeepsWellFormed(docs: seq<UserDoc>, doc: UserDoc)
    requires WellFormed(docs)
    requires doc.name != "" && doc.email != "" && doc.password != ""
    requires doc.email == NormalizeEmail(doc.email) && doc.createdAt == doc.updatedAt
    requires FindByEmail(docs, doc.email).None?
    ensures WellFormed(docs + [doc])
  {
  }

  class UserCollection {
    var docs: seq<UserDoc>

    ghost predicate Valid()
      reads this
    {
      WellFormed(docs)
    }

    constructor ()
      ensures Valid() && docs == []
    {
      docs := [];
    }

    /** `User.findOne({ email: query })`; the filter goes through the email setters. */
    function FindOne(query: string): (r: Option<UserDoc>)
      reads this
      ensures r.Some? <==> exists i :: 0 <= i < |docs| && docs[i].email == NormalizeEmail(query)
      ensures r.Some? ==> r.value in docs && r.value.email == NormalizeEmail(query)
    {
      FindByEmail(docs, NormalizeEmail(query))
    }

    /** `User.create({ name, email, password })` at time `now`, with `id` the new ObjectId:
        setters, then the `required` validators, then the unique index. */
    method Create(name: string, email: string, password: string, id: string, now: int) returns (r: CreateResult)
      requires Valid()
      modifies this
      ensures Valid()
      ensures MissingPaths(name, NormalizeEmail(email), password) != [] ==>
                r == Invalid(MissingPaths(name, NormalizeEmail(email), password)) && docs == old(docs)
      ensures MissingPaths(name, NormalizeEmail(email), password) == [] && old(FindOne(email)).Some? ==>
                r == DuplicateEmail && docs == old(docs)
      ensures MissingPaths(name, NormalizeEmail(email), password) == [] && old(FindOne(email)).None? ==>
                var doc := UserDoc(id, name, NormalizeEmail(email), password, now, now);
                r == Created(doc) && docs == old(docs) + [doc]
    {
      var stored := NormalizeEmail(email);
      var missing := MissingPaths(name, stored, password);
      if missing != [] {
        return Invalid(missing);
      }
      if FindOne(email).Some? {
        return DuplicateEmail;
      }
      var doc := UserDoc(id, name, stored, password, now, now);
      NormalizeIdempotent(email);
      AppendKeepsWellFormed(docs, doc);
      docs := docs + [doc];
      r := Created(doc);
    }
  }

  /** A stored email is its own normal form. */
  lemma NormalizeIdempotent(email: string)
    ensures NormalizeEmail(NormalizeEmail(email)) == NormalizeEmail(email)
  {
    var x := JsString.ToLower(email);
    JsString.ToLowerIdempotent(email);
    TrimKeepsLowered(x);
    TrimIdempotent(x);
  }

  lemma TrimKeepsLowered(x: string)
    requires JsString.ToLower(x) == x
    ensures JsString.ToLower(JsString.Trim(x)) == JsString.Trim(x)
  {
    var front := JsString.TrimStart(x);
    var t := JsString.TrimEnd(front);
    var p := |x| - |front|;
    PrefixOfSuffix(x, p, |t|);
    LowerSlice(x, p, p + |t|);
  }

  lemma PrefixOfSuffix(x: string, p: nat, n: nat)
    requires p + n <= |x|
    ensures x[p..][..n] == x[p..p + n]
  {
  }

  /** A piece of a lower-case text is lower-case. */
  lemma LowerSlice(x: string, a: int, b: int)
    requires JsString.ToLower(x) == x && 0 <= a <= b <= |x|
    ensures JsString.ToLower(x[a..b]) == x[a..b]
  {
    var s := x[a..b];
    forall i | 0 <= i < |s|
      ensures JsString.LowerChar(s[i]) == s[i]
    {
      assert s[i] == x[a + i];
      assert JsString.ToLower(x)[a + i] == JsString.LowerChar(x[a + i]);
    }
    var lowered := JsString.ToLower(s);
    assert |lowered| == |s| && forall i :: 0 <= i < |s| ==> lowered[i] == s[i];
  }

  lemma TrimIdempotent(x: string)
    ensures JsString.Trim(JsString.Trim(x)) == JsString.Trim(x)
  {
    var front := JsString.TrimStart(x);
    var t := JsString.TrimEnd(front);
    if t != [] {
      assert t[0] == front[0];
    }
    assert JsString.TrimStart(t) == t;
    assert JsString.TrimEnd(t) == t;
  }
}
