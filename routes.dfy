/**
 * The Express routing of the server: the two router tables, built by
 * successive registrations, their mounting under `/api/auth` and `/api/notes`,
 * and first-match dispatch in registration order. A request path is taken as
 * its list of non-empty segments.
 */
module Routes {
  import opened Wrappers
  import opened Http

  /** A path pattern segment: literal text, or a `:name` parameter matching one segment. */
  datatype Segment = Lit(text: string) | Param(name: string)

  datatype Handler =
    | GetNotes | GetTags | GetNoteById | CreateNote | UpdateNote | DeleteNote
    | Register | Login | Health

  /** One entry of a router's stack: the `protect` middleware, or a route. */
  datatype Layer = Protect | Route(verb: Verb, pattern: seq<Segment>, handler: Handler)

  /** What dispatch comes to: a handler runs with these route parameters, `protect` answers 401,
      or nothing matches and the request falls through to Express's 404. */
  datatype Outcome = Handled(handler: Handler, params: map<string, string>) | Unauthorized | NoMatch

  /** The route parameters when `segs` matches `pattern`. */
  function Match(pattern: seq<Segment>, segs: seq<string>): (r: Option<map<string, string>>)
    ensures r.Some? <==> |pattern| == |segs| && forall k :: 0 <= k < |pattern| && pattern[k].Lit? ==> segs[k] == pattern[k].text
    ensures r.Some? ==> forall k :: 0 <= k < |pattern| && pattern[k].Param? ==> pattern[k].name in r.value
    decreases |pattern|
  {
    if |pattern| != |segs| then None
    else if pattern == [] then Some(map[])
    else
      var rest := Match(pattern[1..], segs[1..]);
      assert forall k :: 1 <= k < |pattern| ==> pattern[k] == pattern[1..][k - 1] && segs[k] == segs[1..][k - 1];
      match pattern[0]
      case Lit(t) => if segs[0] == t then rest else None
      case Param(n) => if rest.None? then None else Some(rest.value[n := segs[0]])
  }

  /** A route registered for `routeVerb` serves requests of `verb`: Express answers a HEAD
      request with a GET route when the route registers no HEAD handler. */
  predicate Serves(routeVerb: Verb, verb: Verb) {
    routeVerb == verb || (verb == HEAD && routeVerb == GET)
  }

  predicate RouteMatches(layer: Layer, verb: Verb, segs: seq<string>) {
    layer.Route? && Serves(layer.verb, verb) && Match(layer.pattern, segs).Some?
  }

  /** The layer lets the request go on: it is not a matching route, and if it is `protect`,
      the request is authorized. */
  predicate PassesOn(layer: Layer, verb: Verb, segs: seq<string>, authorized: bool) {
    !RouteMatches(layer, verb, segs) && (layer.Protect? ==> authorized)
  }

  /** `r` is what the route at index k gives, and no earlier route matches. */
  ghost predicate FirstMatchAt(stack: seq<Layer>, verb: Verb, segs: seq<string>, k: int, r: Outcome) {
    && 0 <= k < |stack| && RouteMatches(stack[k], verb, segs)
    && r == Handled(stack[k].handler, Match(stack[k].pattern, segs).value)
    && forall j :: 0 <= j < k ==> !RouteMatches(stack[j], verb, segs)
  }

  /** Runs the stack in order: `protect` either passes the request on (`authorized`) or answers;
      the first route whose method and pattern match handles it. */
  function Dispatch(stack: seq<Layer>, verb: Verb, segs: seq<string>, authorized: bool): (r: Outcome)
    ensures r.NoMatch? <==> forall k :: 0 <= k < |stack| ==> PassesOn(stack[k], verb, segs, authorized)
    ensures r.Handled? ==> exists k :: FirstMatchAt(stack, verb, segs, k, r)
    ensures r.Unauthorized? ==> !authorized && Protect in stack
    decreases |stack|
  {
    if stack == [] then NoMatch
    else
      var r := if stack[0].Protect? && !authorized then Unauthorized
               else if RouteMatches(stack[0], verb, segs) then Handled(stack[0].handler, Match(stack[0].pattern, segs).value)
               else Dispatch(stack[1..], verb, segs, authorized);
      ShiftPassesOn(stack, verb, segs, authorized);
      if r.Handled? && !RouteMatches(stack[0], verb, segs) then
        ShiftFirstMatch(stack, verb, segs, r);
        r
      else
        assert r.Handled? ==> FirstMatchAt(stack, verb, segs, 0, r);
        r
  }

  lemma ShiftPassesOn(stack: seq<Layer>, verb: Verb, segs: seq<string>, authorized: bool)
    requires stack != []
    ensures (forall k :: 0 <= k < |stack| ==> PassesOn(stack[k], verb, segs, authorized))
            <==> PassesOn(stack[0], verb, segs, authorized)
                 && forall k :: 0 <= k < |stack[1..]| ==> PassesOn(stack[1..][k], verb, segs, authorized)
  {
    assert forall k :: 1 <= k < |stack| ==> stack[k] == stack[1..][k - 1];
  }

  lemma ShiftFirstMatch(stack: seq<Layer>, verb: Verb, segs: seq<string>, r: Outcome)
    requires stack != [] && !RouteMatches(stack[0], verb, segs)
    requires exists k :: FirstMatchAt(stack[1..], verb, segs, k, r)
    ensures exists k :: FirstMatchAt(stack, verb, segs, k, r)
  {
    var k :| FirstMatchAt(stack[1..], verb, segs, k, r);
    assert forall j :: 0 <= j < k ==> stack[1..][j] == stack[j + 1];
    assert FirstMatchAt(stack, verb, segs, k + 1, r);
  }

  /** Dispatch is decided by the first matching route, provided every `protect` before it
      passes the request on. */
  lemma {:induction false} FirstMatchWins(stack: seq<Layer>, verb: Verb, segs: seq<string>, authorized: bool, k: nat)
    requires k < |stack| && RouteMatches(stack[k], verb, segs)
    requires forall j :: 0 <= j < k ==> PassesOn(stack[j], verb, segs, authorized)
    ensures Dispatch(stack, verb, segs, authorized) == Handled(stack[k].handler, Match(stack[k].pattern, segs).value)
    decreases k
  {
    if k > 0 {
      assert forall j :: 0 <= j < k - 1 ==> stack[1..][j] == stack[j + 1];
      FirstMatchWins(stack[1..], verb, segs, authorized, k - 1);
    }
  }

  /** An Express router: the stack its registrations build. */
  class Router {
    var stack: seq<Layer>

    constructor ()
      ensures stack == []
    {
      stack := [];
    }

    /** `router.use(protect)`. */
    method Use()
      modifies this
      ensures stack == old(stack) + [Protect]
    {
      stack := stack + [Protect];
    }

    /** `router.get`, `post`, `put` or `delete` (by `verb`) of `pattern` to `handler`. */
    method Add(verb: Verb, pattern: seq<Segment>, handler: Handler)
      modifies this
      ensures stack == old(stack) + [Route(verb, pattern, handler)]
    {
      stack := stack + [Route(verb, pattern, handler)];
    }
  }

  const NoteStack: seq<Layer> := [
    Protect,
    Route(GET, [], GetNotes),
    Route(GET, [Lit("tags")], GetTags),
    Route(GET, [Param("id")], GetNoteById),
    Route(POST, [], CreateNote),
    Route(PUT, [Param("id")], UpdateNote),
    Route(DELETE, [Param("id")], DeleteNote)
  ]

  const AuthStack: seq<Layer> := [
    Route(POST, [Lit("register")], Register),
    Route(POST, [Lit("login")], Login)
  ]

  /** The note router, registration by registration. */
  method NoteRouter() returns (router: Router)
    ensures fresh(router) && router.stack == NoteStack
  {
    router := new Router();
    router.Use();
    router.Add(GET, [], GetNotes);
    router.Add(GET, [Lit("tags")], GetTags);
    router.Add(GET, [Param("id")], GetNoteById);
    router.Add(POST, [], CreateNote);
    router.Add(PUT, [Param("id")], UpdateNote);
    router.Add(DELETE, [Param("id")], DeleteNote);
  }

  /** The auth router. */
  method AuthRouter() returns (router: Router)
    ensures fresh(router) && router.stack == AuthStack
  {
    router := new Router();
    router.Add(POST, [Lit("register")], Register);
    router.Add(POST, [Lit("login")], Login);
  }

  function StripMount(segs: seq<string>, mount: seq<string>): (r: Option<seq<string>>)
    ensures r.Some? <==> |mount| <= |segs| && segs[..|mount|] == mount
    ensures r.Some? ==> segs == mount + r.value
  {
    if |mount| <= |segs| && segs[..|mount|] == mount then Some(segs[|mount|..]) else None
  }

  function Mounted(mount: seq<string>, stack: seq<Layer>, verb: Verb, segs: seq<string>, authorized: bool): Outcome {
    var rest := StripMount(segs, mount);
    if rest.None? then NoMatch else Dispatch(stack, verb, rest.value, authorized)
  }

  /** The application: the auth router under `/api/auth`, the note router under `/api/notes`,
      then `GET /api/health`, each tried when the ones before it match nothing. */
  function AppDispatch(verb: Verb, segs: seq<string>, authorized: bool): Outcome {
    var auth := Mounted(["api", "auth"], AuthStack, verb, segs, authorized);
    if !auth.NoMatch? then auth
    else
      var notes := Mounted(["api", "notes"], NoteStack, verb, segs, authorized);
      if !notes.NoMatch? then notes
      else if Serves(GET, verb) && segs == ["api", "health"] then Handled(Health, map[])
      else NoMatch
  }

  /** `protect` runs before every note handler: without a valid token no note handler runs, and
      every request under `/api/notes` that reaches the routers, even one no route matches, is
      answered 401. (OPTIONS preflights never reach them: `cors()` answers those first.) */
  lemma ProtectGuardsNotes(verb: Verb, rest: seq<string>)
    ensures AppDispatch(verb, ["api", "notes"] + rest, false) == Unauthorized
  {
    var segs := ["api", "notes"] + rest;
    assert segs[..2] == ["api", "notes"] && segs[2..] == rest;
    assert StripMount(segs, ["api", "auth"]).None? by {
      assert segs[1] != "auth";
    }
  }

  /** With a valid token, each note route reaches its handler, with the `id` parameter bound to
      the path segment. */
  lemma NoteRoutesAuthorized(id: string)
    requires id != "tags"
    ensures AppDispatch(GET, ["api", "notes"], true) == Handled(GetNotes, map[])
    ensures AppDispatch(POST, ["api", "notes"], true) == Handled(CreateNote, map[])
    ensures AppDispatch(GET, ["api", "notes", id], true) == Handled(GetNoteById, map["id" := id])
    ensures AppDispatch(PUT, ["api", "notes", id], true) == Handled(UpdateNote, map["id" := id])
    ensures AppDispatch(DELETE, ["api", "notes", id], true) == Handled(DeleteNote, map["id" := id])
  {
    NotesMount([]);
    assert ["api", "notes"] + [] == ["api", "notes"];
    FirstMatchWins(NoteStack, GET, [], true, 1);
    FirstMatchWins(NoteStack, POST, [], true, 4);
    OneSegmentDispatch(GET, id);
    OneSegmentDispatch(PUT, id);
    OneSegmentDispatch(DELETE, id);
  }

  /** Where a request for `/api/notes/<seg>` goes once `protect` has passed it on; HEAD goes
      where GET goes. */
  lemma OneSegmentDispatch(verb: Verb, seg: string)
    ensures AppDispatch(verb, ["api", "notes", seg], true) ==
      if (verb == GET || verb == HEAD) && seg == "tags" then Handled(GetTags, map[])
      else if verb == GET || verb == HEAD then Handled(GetNoteById, map["id" := seg])
      else if verb == PUT then Handled(UpdateNote, map["id" := seg])
      else if verb == DELETE then Handled(DeleteNote, map["id" := seg])
      else NoMatch
  {
    NotesMount([seg]);
    assert ["api", "notes"] + [seg] == ["api", "notes", seg];
    OneSegmentMatches(verb, seg);
    if (verb == GET || verb == HEAD) && seg == "tags" {
      FirstMatchWins(NoteStack, verb, [seg], true, 2);
    } else if verb == GET || verb == HEAD {
      FirstMatchWins(NoteStack, verb, [seg], true, 3);
    } else if verb == PUT {
      FirstMatchWins(NoteStack, PUT, [seg], true, 5);
    } else if verb == DELETE {
      FirstMatchWins(NoteStack, DELETE, [seg], true, 6);
    } else {
      assert forall k :: 0 <= k < |NoteStack| ==> !RouteMatches(NoteStack[k], verb, [seg]);
    }
  }

  /** Which entries of the note stack a one-segment path matches. */
  lemma OneSegmentMatches(verb: Verb, seg: string)
    ensures Match([Param("id")], [seg]) == Some(map["id" := seg])
    ensures !RouteMatches(NoteStack[0], verb, [seg])
    ensures !RouteMatches(NoteStack[1], verb, [seg]) && !RouteMatches(NoteStack[4], verb, [seg])
    ensures RouteMatches(NoteStack[2], verb, [seg]) <==> (verb == GET || verb == HEAD) && seg == "tags"
    ensures RouteMatches(NoteStack[3], verb, [seg]) <==> verb == GET || verb == HEAD
    ensures RouteMatches(NoteStack[5], verb, [seg]) <==> verb == PUT
    ensures RouteMatches(NoteStack[6], verb, [seg]) <==> verb == DELETE
  {
    assert Match([], [seg]).None?;
  }

  lemma NotesMount(rest: seq<string>)
    ensures forall verb, authorized :: AppDispatch(verb, ["api", "notes"] + rest, authorized)
              == Dispatch(NoteStack, verb, rest, authorized)
  {
    var segs := ["api", "notes"] + rest;
    assert segs[..2] == ["api", "notes"] && segs[2..] == rest;
    assert StripMount(segs, ["api", "auth"]).None? by {
      assert segs[1] != "auth";
    }
    assert forall verb, authorized :: Dispatch(NoteStack, verb, rest, authorized).NoMatch? ==>
      !(Serves(GET, verb) && segs == ["api", "health"]) by {
      assert segs[1] != "health";
    }
  }

  /** `GET /tags` is registered before `GET /:id`, so it is `getTags` that answers `/tags`, though
      the `/:id` pattern matches it too; `PUT` and `DELETE` have no such route, so there `tags`
      is an id. */
  lemma TagsShadowsId()
    ensures RouteMatches(NoteStack[3], GET, ["tags"])
    ensures AppDispatch(GET, ["api", "notes", "tags"], true) == Handled(GetTags, map[])
    ensures AppDispatch(PUT, ["api", "notes", "tags"], true) == Handled(UpdateNote, map["id" := "tags"])
    ensures AppDispatch(DELETE, ["api", "notes", "tags"], true) == Handled(DeleteNote, map["id" := "tags"])
  {
    OneSegmentMatches(GET, "tags");
    OneSegmentDispatch(GET, "tags");
    OneSegmentDispatch(PUT, "tags");
    OneSegmentDispatch(DELETE, "tags");
  }

  /** Registration, login and the health check need no token. */
  lemma PublicRoutes()
    ensures AppDispatch(POST, ["api", "auth", "register"], false) == Handled(Register, map[])
    ensures AppDispatch(POST, ["api", "auth", "login"], false) == Handled(Login, map[])
    ensures AppDispatch(GET, ["api", "health"], false) == Handled(Health, map[])
    ensures AppDispatch(HEAD, ["api", "health"], false) == Handled(Health, map[])
  {
    var reg, log, health := ["api", "auth", "register"], ["api", "auth", "login"], ["api", "health"];
    assert reg[..2] == ["api", "auth"] && reg[2..] == ["register"];
    assert log[..2] == ["api", "auth"] && log[2..] == ["login"];
    assert health[..2] != ["api", "auth"] by { assert health[1] != "auth"; }
    assert health[..2] != ["api", "notes"] by { assert health[1] != "notes"; }
  }
}
