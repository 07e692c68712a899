/**
 * The browser client against the server: every call of `authAPI` and
 * `noteAPI`, sent relative to a base URL that ends in `/api`, reaches the
 * server handler of the same name, with one exception.
 */
module ClientServer {
  import opened Wrappers
  import opened Http
  import JsString
  import ApiClient
  import Routes

  /** The segments of an absolute path: `split("/")` without the empty piece before the
      leading slash. */
  function PathSegments(path: string): seq<string>
    requires |path| > 0 && path[0] == '/'
  {
    JsString.Split(path, '/')[1..]
  }

  /** The server handler each client call is named after. */
  function Counterpart(call: ApiClient.ClientCall): Routes.Handler {
    match call
    case RegisterCall => Routes.Register
    case LoginCall => Routes.Login
    case GetAllNotes => Routes.GetNotes
    case GetNoteById(_) => Routes.GetNoteById
    case CreateNote => Routes.CreateNote
    case UpdateNote(_) => Routes.UpdateNote
    case DeleteNote(_) => Routes.DeleteNote
    case GetTags => Routes.GetTags
  }

  /** An id the client can put in a path: one non-empty segment. */
  predicate IsSegment(id: string) {
    id != "" && '/' !in id
  }

  predicate WellFormedCall(call: ApiClient.ClientCall) {
    (call.GetNoteById? || call.UpdateNote? || call.DeleteNote?) ==> IsSegment(call.id)
  }

  lemma {:induction false} TwoSegments(first: string, second: string)
    requires IsSegment(first) && IsSegment(second)
    ensures PathSegments("/" + first + "/" + second) == [first, second]
  {
    var path := "/" + first + "/" + second;
    assert path == "" + ['/'] + (first + "/" + second);
    JsString.SplitCons("", '/', first + "/" + second);
    assert first + "/" + second == first + ['/'] + second;
    JsString.SplitCons(first, '/', second);
  }

  lemma {:induction false} OneSegment(first: string)
    requires IsSegment(first)
    ensures PathSegments("/" + first) == [first]
  {
    var path := "/" + first;
    assert path == "" + ['/'] + first;
    JsString.SplitCons("", '/', first);
  }

  /** Where a client call ends up on the server. */
  function Reached(call: ApiClient.ClientCall): Routes.Outcome {
    if call == ApiClient.GetNoteById("tags") then Routes.Handled(Routes.GetTags, map[])
    else if call.GetNoteById? || call.UpdateNote? || call.DeleteNote? then
      Routes.Handled(Counterpart(call), map["id" := call.id])
    else Routes.Handled(Counterpart(call), map[])
  }

  /** The request of `call`, sent under a base URL ending in `/api`, is dispatched to
      `Reached(call)`. */
  predicate LandsOn(call: ApiClient.ClientCall, authorized: bool) {
    var e := ApiClient.Route(call);
    && |e.path| > 0 && e.path[0] == '/'
    && Routes.AppDispatch(e.verb, ["api"] + PathSegments(e.path), authorized) == Reached(call)
  }

  /** With a valid token, every well-formed client call reaches its counterpart on the server,
      an id travelling as the `id` route parameter, except that fetching the note with id
      `tags` reaches `getTags`. Registration and login need no token. */
  lemma ClientReachesCounterpart(call: ApiClient.ClientCall, authorized: bool)
    requires WellFormedCall(call)
    requires authorized || call.RegisterCall? || call.LoginCall?
    ensures LandsOn(call, authorized)
  {
    if call.RegisterCall? || call.LoginCall? {
      AuthCallsLand(call, authorized);
    } else if call.GetAllNotes? || call.CreateNote? {
      NotesRoot();
    } else {
      NoteCallsLand(call);
    }
  }

  lemma AuthCallsLand(call: ApiClient.ClientCall, authorized: bool)
    requires call.RegisterCall? || call.LoginCall?
    ensures LandsOn(call, authorized)
  {
    if call.RegisterCall? {
      RegisterLands(authorized);
    } else {
      LoginLands(authorized);
    }
  }

  lemma RegisterLands(authorized: bool)
    ensures LandsOn(ApiClient.RegisterCall, authorized)
  {
    assert ApiClient.Route(ApiClient.RegisterCall).path == "/" + "auth" + "/" + "register";
    TwoSegments("auth", "register");
    AuthRoutes(authorized);
  }

  lemma LoginLands(authorized: bool)
    ensures LandsOn(ApiClient.LoginCall, authorized)
  {
    assert ApiClient.Route(ApiClient.LoginCall).path == "/" + "auth" + "/" + "login";
    TwoSegments("auth", "login");
    AuthRoutes(authorized);
  }

  lemma NoteCallsLand(call: ApiClient.ClientCall)
    requires call.GetTags? || (WellFormedCall(call) && (call.GetNoteById? || call.UpdateNote? || call.DeleteNote?))
    ensures LandsOn(call, true)
  {
    var e := ApiClient.Route(call);
    var id := if call.GetTags? then "tags" else call.id;
    assert e.path == ApiClient.NotePath(id);
    NoteIdPath(e.verb, id);
    Routes.OneSegmentDispatch(e.verb, id);
  }

  lemma NotesRoot()
    ensures Routes.AppDispatch(GET, ["api"] + PathSegments("/notes"), true) == Routes.Handled(Routes.GetNotes, map[])
    ensures Routes.AppDispatch(POST, ["api"] + PathSegments("/notes"), true) == Routes.Handled(Routes.CreateNote, map[])
  {
    assert "/notes" == "/" + "notes";
    OneSegment("notes");
    assert ["api"] + ["notes"] == ["api", "notes"];
    Routes.NoteRoutesAuthorized("x");
  }

  lemma NoteIdPath(verb: Verb, id: string)
    requires IsSegment(id)
    ensures Routes.AppDispatch(verb, ["api"] + PathSegments(ApiClient.NotePath(id)), true)
            == Routes.AppDispatch(verb, ["api", "notes", id], true)
  {
    assert ApiClient.NotePath(id) == "/" + "notes" + "/" + id;
    TwoSegments("notes", id);
    assert ["api"] + ["notes", id] == ["api", "notes", id];
  }

  lemma AuthRoutes(authorized: bool)
    ensures Routes.AppDispatch(POST, ["api"] + ["auth", "register"], authorized) == Routes.Handled(Routes.Register, map[])
    ensures Routes.AppDispatch(POST, ["api"] + ["auth", "login"], authorized) == Routes.Handled(Routes.Login, map[])
  {
    var reg, log := ["api", "auth", "register"], ["api", "auth", "login"];
    assert ["api"] + ["auth", "register"] == reg && ["api"] + ["auth", "login"] == log;
    assert reg[..2] == ["api", "auth"] && reg[2..] == ["register"];
    assert log[..2] == ["api", "auth"] && log[2..] == ["login"];
  }
}
