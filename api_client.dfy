/**
 * The browser's API client: the base URL check made when the module loads, the
 * request interceptor that attaches the stored token as a Bearer header, and
 * the paths of the `authAPI` and `noteAPI` calls.
 */
module ApiClient {
  import opened Wrappers
  import opened Http
  import JsString
  import opened BrowserStorage
  import AuthMiddleware

  /** The axios base URL from `VITE_API_URL`; `None` when the module throws on load because
      the variable is missing or empty. */
  function BaseUrl(env: Option<string>): (r: Option<string>)
    ensures r.Some? <==> env.Some? && env.value != ""
    ensures r.Some? ==> r == env
  {
    if env.None? || env.value == "" then None else env
  }

  /** The Authorization header value for a token. */
  function BearerHeader(token: string): (r: string)
    ensures JsString.StartsWith(r, AuthMiddleware.Scheme) && r[|AuthMiddleware.Scheme|..] == token
  {
    "Bearer " + token
  }

  /** The token the server extracts from the header the client builds is the token the client
      stored, for every non-empty token without a space (the compact form of a JSON Web Token
      has none). */
  lemma {:induction false} BearerRoundTrip(token: string)
    requires token != "" && ' ' !in token
    ensures AuthMiddleware.ExtractToken(Some(BearerHeader(token))) == Some(token)
  {
    var h := BearerHeader(token);
    AuthMiddleware.SplitAfterScheme(h);
    assert h[|AuthMiddleware.Scheme|..] == token;
  }

  /** A token with a space comes back cut at the space. */
  lemma SpacedTokenIsCut()
    ensures AuthMiddleware.ExtractToken(Some(BearerHeader("ab c"))) == Some("ab")
  {
    assert BearerHeader("ab c") == AuthMiddleware.Scheme + "ab" + [' '] + "c";
    AuthMiddleware.TokenEndsAtSpace("ab", "c");
  }

  /** The headers of an outgoing request, which the interceptor changes in place. */
  class RequestConfig {
    var headers: map<string, string>

    constructor (headers: map<string, string>)
      ensures this.headers == headers
    {
      this.headers := headers;
    }
  }

  /** The request interceptor: a truthy stored token becomes the Authorization header; a
      missing or empty one leaves the headers as they are. */
  method Intercept(config: RequestConfig, storage: LocalStorage)
    modifies config
    ensures var token := storage.GetItem("token");
      if token.Some? && token.value != "" then
        config.headers == old(config.headers)["Authorization" := BearerHeader(token.value)]
      else
        config.headers == old(config.headers)
  {
    var token := storage.GetItem("token");
    if token.Some? && token.value != "" {
      config.headers := config.headers["Authorization" := BearerHeader(token.value)];
    }
  }

  /** The calls of `authAPI` and `noteAPI`. */
  datatype ClientCall =
    | RegisterCall
    | LoginCall
    | GetAllNotes
    | GetNoteById(id: string)
    | CreateNote
    | UpdateNote(id: string)
    | DeleteNote(id: string)
    | GetTags

  /** The request line of a call, relative to the base URL. */
  datatype Endpoint = Endpoint(verb: Verb, path: string)

  function NotePath(id: string): string {
    "/notes/" + id
  }

  function Route(call: ClientCall): (r: Endpoint)
    ensures call.GetNoteById? || call.UpdateNote? || call.DeleteNote? ==> r.path == NotePath(call.id)
    ensures r.verb == GET <==> call.GetAllNotes? || call.GetNoteById? || call.GetTags?
  {
    match call
    case RegisterCall => Endpoint(POST, "/auth/register")
    case LoginCall => Endpoint(POST, "/auth/login")
    case GetAllNotes => Endpoint(GET, "/notes")
    case GetNoteById(id) => Endpoint(GET, NotePath(id))
    case CreateNote => Endpoint(POST, "/notes")
    case UpdateNote(id) => Endpoint(PUT, NotePath(id))
    case DeleteNote(id) => Endpoint(DELETE, NotePath(id))
    case GetTags => Endpoint(GET, "/notes/tags")
  }

  /** Fetching the note with id "tags" sends the very request that fetches the tag list. */
  lemma NoteNamedTagsIsTagList()
    ensures Route(GetNoteById("tags")) == Route(GetTags)
  {
  }
}
