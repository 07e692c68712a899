# Notes App — a Dafny model of its core

The system is a small notes web application.

- **Backend.** An Express server stores users and Markdown notes in MongoDB through Mongoose. Registration and login answer with a JSON Web Token. Each note request must carry the token as `Authorization: Bearer <token>`, and the `protect` middleware checks it first. A socket.io relay lets several editors of the same note see each other's edits and cursors.
- **Frontend.** A React client keeps the signed-in user and token in a zustand store mirrored into `localStorage`. It sends every request through an axios client that attaches the token. Notes are listed on a dashboard with a tag filter and edited in a Markdown editor with a toolbar, word and character counts, and autosave.

This project models the logic of that core and proves what it does:

| area | file | what the model proves |
|---|---|---|
| realtime relay | `realtime.dfy` | Room membership is a set. Every relay reaches exactly the room's members outside the sender's own-id room. `disconnecting` sends one `user_left` per room a receiver is in. |
| user schema | `user_model.dfy` | Required paths, the unique email, and the `lowercase`/`trim` setters, with their idempotence. |
| register / login | `auth_controller.dfy` | The password regular expression is equivalent to a policy over the password's first line. The five outcomes of `register` are given in check order. `login` gives the same answer for an unknown email and a wrong password. |
| `protect` | `auth_middleware.dfy` | The Bearer header check and token extraction (section 2.1 of RFC 6750, as the server reads it). Every call ends in exactly one of `next` and a 401. |
| API client | `api_client.dfy` | The interceptor, the round trip between the header the client builds and the token the server extracts, and the request paths. |
| note schema and store | `note_model.dfy` | Defaults, `required` validators, and lookups, updates and deletes scoped to both id and owner. |
| note handlers | `note_controller.dfy` | Every handler is owner-scoped. `getNotes` returns pinned notes first. `getTags` is the de-duplicated tag list in first-occurrence order, built by the source's nested loops. |
| routing | `routes.dfy` | First-match dispatch over the two router stacks and their mounts. `protect` guards every note route. `/tags` shadows `/:id`. |
| client and server together | `client_server.dfy` | Each client call lands on the server handler of the same name. |
| editor | `note_card.dfy` | The `insertMarkdown` splice and selection shift. `countWords` counts maximal non-whitespace runs. The autosave guard. |
| auth store | `auth_store.dfy` | `setAuth`/`logout` over `localStorage`, and re-initialisation after a page reload. |
| dashboard | `dashboard.dfy` | The tag filter, the "All Notes" count, and the requests the save and delete handlers send. |

Shared vocabulary lives in `common.dfy`:

- an `Option` type for undefined/null;
- HTTP verbs and responses;
- the JavaScript string built-ins the code relies on: `trim`, ASCII `toLowerCase`, `split` on one character, and `substring` with its clamping and swapping;
- Mongoose's message for failed `required` validators.

`browser_storage.dfy` models `localStorage` as a class over a string map.

Crypto, time, identifiers and the server's answers are parameters of the model:

- the bcrypt hash, bcrypt comparison, JWT signing and JWT verification;
- new ObjectIds and the current time;
- whether an awaited request resolved.

### Relay behaviour worth knowing

- Repeated joins. `join_note` re-announces `user_joined` on every call, including a repeated join to a room the socket is already in. Membership stays a set (`Realtime.JoinTwiceIsJoinOnce`).
- `user_left` payload. `user_left` carries `socket.id`, not the client-supplied display name.
- Who a relay skips. `socket.to(room)` skips every socket in the room named by the sender's id, not only the sender. A client that learns another socket's id (from a `user_left` payload, say) can `join_note` that id and then stops hearing that socket's relays in every room they share. The model keeps this (`Realtime.Emit`).
- The socket's own room. `socket.rooms` includes the socket's own-id room, so `disconnecting` emits there too. Every member of that room is skipped, so nobody receives that emission.
- No explicit leave. There is no explicit leave event. Room membership only ends when socket.io removes a disconnected socket.
- No validation. Connections are not registered twice (socket.io ids are fresh). Rooms are not validated against stored notes.

## Model

| member | source | states |
|---|---|---|
| Realtime.Join | backend/src/server.ts:33 | `socket.join` adds the socket to the room's members and changes no other room's members. |
| Realtime.JoinTwiceIsJoinOnce | backend/src/server.ts:33 | Joining the same room again leaves `socket.rooms`, and so every membership, as after one join. |
| Realtime.Emit | backend/src/server.ts:38-47 | `socket.to(room).emit(e)` appends `e` to the inbox of exactly the room's members that are not in the room named by the sender's id. The inboxes of that room's members, the sender's included, are unchanged. No inbox appears or disappears. |
| Realtime.RoomServer.Connect | backend/src/server.ts:30 | A new socket starts in the room named by its own id, with an empty inbox. |
| Realtime.RoomServer.JoinNote | backend/src/server.ts:32-35 | After `join_note`, the socket is a member of the note's room. `user_joined {user}` goes to every member of the room before the join that is not in the joiner's own-id room, and to no one else. The joiner's own-id room keeps its members. |
| Realtime.RoomServer.EditNote | backend/src/server.ts:38-41 | `note_edited {content, cursor, user}` (no note id) goes to the room's members outside the sender's own-id room. The sender gets nothing. Membership is unchanged, and the sender need not be a member. |
| Realtime.RoomServer.CursorMove | backend/src/server.ts:44-47 | `cursor_moved {cursor, user}` goes to the room's members outside the sender's own-id room. The sender gets nothing. Membership is unchanged. |
| Realtime.RoomServer.Disconnecting | backend/src/server.ts:49-54 | The loop over `socket.rooms` performs one `user_left {user: socket.id}` emission per room, in order. Membership is unchanged. |
| Realtime.EmitEachAppends | backend/src/server.ts:50-53 | After the loop, each socket's inbox has gained one copy of the event per room of the list that the emission reaches it in. |
| Realtime.SharedCountIsRoomsHolding | backend/src/server.ts:50-53 | For a socket outside the sender's own-id room, that count is the number of the listed rooms the socket is in. |
| Realtime.SharedCountIsZeroInSenderRoom | backend/src/server.ts:52 | No socket in the sender's own-id room, the sender included, receives the sender's `user_left`. |
| Realtime.DisconnectFanOut | backend/src/server.ts:49-54 | On `disconnecting`, the sockets in the leaving socket's own-id room receive nothing: the leaving socket, and any socket that joined that room. Every other socket receives exactly one `user_left` naming the leaving socket per room of the leaving socket that it is in, and nothing else. |
| Realtime.RoomServer.Disconnected | backend/src/server.ts:49 | After the handlers, the socket leaves every room and no other membership changes. |
| JsString.ToLowerIdempotent | backend/src/models/User.ts:19 | Lower-casing twice is lower-casing once. |
| JsString.Split | backend/src/middleware/authMiddleware.ts:33 | The first piece of `split(sep)` is the longest separator-free prefix, ending at the first separator or at the end. |
| JsString.SplitCons | backend/src/middleware/authMiddleware.ts:33 | Splitting a separator-free piece, a separator and a rest gives that piece followed by the pieces of the rest. |
| JsString.Substring | frontend/src/features/notes/NoteCard.tsx:93-99 | For ordered in-range indices, `substring` is the slice between them. It is never longer than the string. |
| UserModel.MissingPaths | backend/src/models/User.ts:14-22 | The `required` validators pass exactly when name, email and password are all non-empty. |
| UserModel.FindByEmail | backend/src/models/User.ts:15-21 | A user is found exactly when some stored user has that email, and the user found has it. |
| UserModel.UserCollection.FindOne | backend/src/models/User.ts:19-20 | `findOne({email})` matches the filter after the `lowercase` and `trim` setters. |
| UserModel.UserCollection.Create | backend/src/models/User.ts:12-25 | `User.create` either fails its validators and stores nothing, or is refused by the unique email index and stores nothing, or appends one user. The new user has the normalised email and `createdAt == updatedAt == now`. Emails stay unique and normalised. |
| UserModel.AppendKeepsWellFormed | backend/src/models/User.ts:12-25 | Adding a valid user with a fresh normalised email keeps every schema guarantee. |
| UserModel.NormalizeIdempotent | backend/src/models/User.ts:19-20 | A stored email is its own normal form, so saving it again changes nothing. |
| UserModel.NormalizeLowered | backend/src/controllers/authController.ts:25 | Lower-casing the email before the lookup changes nothing the setters would not do. |
| UserModel.TrimKeepsLowered | backend/src/models/User.ts:19-20 | Trimming a lower-case email keeps it lower-case. |
| UserModel.TrimIdempotent | backend/src/models/User.ts:20 | Trimming twice is trimming once. |
| AuthController.DotStarThenIsFirstLineClass | backend/src/controllers/authController.ts:12 | A lookahead `(?=.*[k])` holds exactly when the first line contains a character of class k. |
| AuthController.DotsAtLeastIsFirstLineLength | backend/src/controllers/authController.ts:12 | `(?=.{8,})` holds exactly when the first line has at least 8 characters. |
| AuthController.PasswordRegexMeansPolicy | backend/src/controllers/authController.ts:12-13 | `PASSWORD_REGEX.test(p)` holds exactly when the first line of `p` has at least 8 characters, an `A`-`Z`, a `0`-`9` and one of `!@#$%^&*`. |
| AuthController.LineBreakHidesTheRest | backend/src/controllers/authController.ts:12 | A password whose capital, digit and special character follow a line break fails. |
| AuthController.OneLinePasses | backend/src/controllers/authController.ts:12 | The same kinds of character on one line pass. |
| AuthController.Register | backend/src/controllers/authController.ts:18-50 | The checks come in order: any falsy field gives 400 "Fill all fields"; an existing email, whatever the password, gives 400 "User already exists"; a policy failure gives 400 with the policy message; an email of blanks gives 500 with the validation message. In each of these cases nothing is stored. Otherwise the user is stored with the lower-cased, trimmed email and the hash, and the answer is 201 with only id, name and email. |
| AuthController.Login | backend/src/controllers/authController.ts:55-75 | An unknown email and a wrong password both give 400 "Invalid credentials". A missing email or password throws inside the try block and gives 500. A match gives 200 with the token and only id, name and email. |
| AuthController.CaseVariantsFindSameUser | backend/src/controllers/authController.ts:58 | Emails that differ only in ASCII letter case find the same user. |
| AuthMiddleware.SplitAfterScheme | backend/src/middleware/authMiddleware.ts:33 | A header with the `"Bearer "` prefix splits into `"Bearer"` followed by the pieces of the rest. |
| AuthMiddleware.ExtractToken | backend/src/middleware/authMiddleware.ts:26-33 | A token is extracted exactly when the header is present and starts with the case-sensitive `"Bearer "`. It is the text after the prefix up to the next space. |
| AuthMiddleware.TokenEndsAtSpace | backend/src/middleware/authMiddleware.ts:33 | After the prefix, a space ends the token. |
| AuthMiddleware.SecondSpaceEndsToken | backend/src/middleware/authMiddleware.ts:33 | `"Bearer a b"` gives the token `"a"`. |
| AuthMiddleware.LeadingSpaceGivesEmptyToken | backend/src/middleware/authMiddleware.ts:33 | `"Bearer  a"` gives the empty token. |
| AuthMiddleware.ExtractTokenExamples | backend/src/middleware/authMiddleware.ts:33 | `"Bearer a b"` gives `"a"`. `"Bearer "` and `"Bearer  a"` give the empty token. |
| AuthMiddleware.SchemeIsExact | backend/src/middleware/authMiddleware.ts:26 | `"bearer abc"`, `"Bearer"`, `"Basic abc"` and an absent header give no token. |
| AuthMiddleware.Verify | backend/src/middleware/authMiddleware.ts:36 | An empty token never verifies. Otherwise the answer is the verifier's. |
| AuthMiddleware.Protect | backend/src/middleware/authMiddleware.ts:18-45 | No usable header gives 401 "No token provided". A failed verification gives 401 "Invalid token". In both cases `userId` is untouched. Otherwise `userId` is set from the claims and `next` is called with no response. Exactly one of these happens. |
| ApiClient.BaseUrl | frontend/src/services/api.ts:3-4 | Loading the module succeeds exactly when `VITE_API_URL` is set and non-empty. |
| ApiClient.BearerHeader | frontend/src/services/api.ts:12 | The header is the `"Bearer "` prefix followed by the token. |
| ApiClient.BearerRoundTrip | frontend/src/services/api.ts:12 | For every non-empty token without a space, `protect` extracts exactly the token the client attached. |
| ApiClient.SpacedTokenIsCut | frontend/src/services/api.ts:12 | A token with a space comes back cut at the space. |
| ApiClient.Intercept | frontend/src/services/api.ts:10-14 | A truthy stored token sets `Authorization` to its Bearer header. A missing or empty token leaves the headers unchanged. |
| ApiClient.Route | frontend/src/services/api.ts:17-33 | Get, update and delete of one note use `"/notes/" + id`. Exactly the three fetches use GET. |
| ApiClient.NoteNamedTagsIsTagList | frontend/src/services/api.ts:27-32 | `getNoteById("tags")` sends the same request as `getTags`. |
| NoteModel.MissingPaths | backend/src/models/Note.ts:4-5 | Validation fails on `userId` exactly when it is empty, and on `title` exactly when it is missing or empty. |
| NoteModel.Build | backend/src/models/Note.ts:3-9 | A new note takes the given fields, with defaults `''`, `[]` and unpinned. It has no timestamps. |
| NoteModel.Apply | backend/src/controllers/noteController.ts:28-32 | An update sets exactly the defined keys and never changes the id or the owner. |
| NoteModel.ApplyLaws | backend/src/controllers/noteController.ts:28-32 | An empty update changes nothing, and applying an update twice is applying it once. |
| NoteModel.Locate | backend/src/controllers/noteController.ts:13 | A position is found exactly when some note has both the id and the owner, and the note there has them. |
| NoteModel.Owned | backend/src/controllers/noteController.ts:7 | `find({userId})` yields exactly the owner's notes. |
| NoteModel.FindNote | backend/src/controllers/noteController.ts:13 | A note is found exactly when one matches both id and owner. |
| NoteModel.LocateIsFindInOwned | backend/src/controllers/noteController.ts:13 | Looking up by id and owner is looking up by id among the owner's notes. |
| NoteModel.NoteCollection.Create | backend/src/models/Note.ts:3-9 | `Note.create` stores exactly the built note, or stores nothing when a validator or the `_id` index fails. Ids stay unique. |
| NoteModel.NoteCollection.FindOneAndUpdate | backend/src/controllers/noteController.ts:28-32 | Only the note matching id and owner changes, and the updated note is returned. If none matches, nothing changes. |
| NoteModel.NoteCollection.FindOneAndDelete | backend/src/controllers/noteController.ts:39 | Only the note matching id and owner is removed. If none matches, nothing changes. |
| NoteModel.DeleteKeepsUniqueIds | backend/src/controllers/noteController.ts:39 | Removing a note keeps ids unique. |
| NoteController.WithPinnedSplits | backend/src/controllers/noteController.ts:7 | The pinned and unpinned notes together are all the notes. |
| NoteController.SortPinnedFirst | backend/src/controllers/noteController.ts:7 | The sort is a permutation that puts every pinned note before every unpinned one. |
| NoteController.GetNotes | backend/src/controllers/noteController.ts:6-9 | The answer is 200 with a permutation of exactly the requester's notes, pinned ones first. |
| NoteController.GetNoteById | backend/src/controllers/noteController.ts:12-16 | A 200 carries a stored note with that id and owner. Another user's note answers 404 "Not found", just like a missing one. |
| NoteController.CreateNote | backend/src/controllers/noteController.ts:19-23 | The note is owned by the authenticated user whatever the body says, is unpinned, and answers 201. A missing title rejects and stores nothing. |
| NoteController.UpdateNote | backend/src/controllers/noteController.ts:26-35 | Only the matching note changes, and the note after the update is returned. Otherwise 404 with nothing changed. |
| NoteController.DeleteNote | backend/src/controllers/noteController.ts:38-42 | Only the matching note is removed, with 200 "Note deleted". Otherwise 404 with nothing changed. |
| NoteController.AllTags | backend/src/controllers/noteController.ts:48 | A tag occurs in the concatenated tag lists exactly when some note has it. |
| NoteController.FirstIndexAppend | backend/src/controllers/noteController.ts:48 | Appending does not move a first occurrence. |
| NoteController.DedupSnoc | backend/src/controllers/noteController.ts:48 | `Set.add` appends a tag only when it is new. |
| NoteController.DedupIsFirstOccurrences | backend/src/controllers/noteController.ts:47-49 | The insertion-ordered set holds each input tag once and nothing else, ordered by first occurrence. |
| NoteController.AddTags | backend/src/controllers/noteController.ts:48 | The inner loop turns the set of the tags seen so far into the set of those tags followed by the note's tags. |
| NoteController.GetTags | backend/src/controllers/noteController.ts:45-50 | The nested loops answer the de-duplicated tags of the requester's notes, in first-occurrence order. Each appears once, and a tag appears exactly when one of the requester's notes has it. |
| NoteController.UniqueTagsOfOwner | backend/src/controllers/noteController.ts:46-49 | The tag list has no duplicates and holds exactly the tags of the owner's notes. Other users' notes are ignored. |
| NoteController.OwnedConcat | backend/src/controllers/noteController.ts:7 | Filtering by owner distributes over concatenation. |
| NoteController.OnlyOwnNotesMatter | backend/src/controllers/noteController.ts:6-50 | Stores holding the same notes of a user answer that user's lookups, listings and tag queries alike. |
| NoteController.OthersNotesAreInvisible | backend/src/controllers/noteController.ts:13 | Another user's note changes nothing the requester sees, and its id answers as a missing one. |
| Routes.Match | backend/src/routes/noteRoutes.ts:27 | A pattern matches exactly the paths of its length whose literal segments agree, and binds every parameter. |
| Routes.Dispatch | backend/src/routes/noteRoutes.ts:18-36 | No outcome exactly when every layer passes the request on. A handled request goes to the first matching route. A 401 only happens unauthorized behind `protect`. |
| Routes.FirstMatchWins | backend/src/routes/noteRoutes.ts:24-27 | When every layer before a matching route passes the request on, that route handles it. |
| Routes.Router.Use | backend/src/routes/noteRoutes.ts:18 | `router.use(protect)` appends `protect` to the stack. |
| Routes.Router.Add | backend/src/routes/noteRoutes.ts:21-36 | A route registration appends that route to the stack. |
| Routes.NoteRouter | backend/src/routes/noteRoutes.ts:15-36 | The registrations build the note stack in source order. |
| Routes.AuthRouter | backend/src/routes/authRoutes.ts:7-13 | The registrations build the auth stack. |
| Routes.StripMount | backend/src/server.ts:20-21 | A mount matches exactly the paths that start with it, and the rest is what follows. |
| Routes.ProtectGuardsNotes | backend/src/routes/noteRoutes.ts:18 | Without a valid token, every request under `/api/notes` that reaches the routers is answered 401 and no note handler runs. |
| Routes.NoteRoutesAuthorized | backend/src/routes/noteRoutes.ts:21-36 | With a valid token: `GET /` goes to `getNotes` and `POST /` to `createNote`. `GET`/`PUT`/`DELETE /:id` go to `getNoteById`/`updateNote`/`deleteNote`, with `id` bound to the segment. |
| Routes.OneSegmentDispatch | backend/src/routes/noteRoutes.ts:24-36 | Every method on `/api/notes/<seg>` goes where the first matching route says. HEAD goes where GET goes, as Express serves HEAD with GET routes. |
| Routes.OneSegmentMatches | backend/src/routes/noteRoutes.ts:21-36 | Which note-stack entries a one-segment path matches, for every method; HEAD matches the GET entries. |
| Routes.NotesMount | backend/src/server.ts:21 | Requests under `/api/notes` are dispatched by the note stack. |
| Routes.TagsShadowsId | backend/src/routes/noteRoutes.ts:24-27 | `GET /tags` reaches `getTags` although `/:id` matches it. `PUT`/`DELETE /tags` treat `tags` as an id. |
| Routes.PublicRoutes | backend/src/server.ts:20-22 | Register, login and `GET`/`HEAD /api/health` need no token. |
| ClientServer.TwoSegments | frontend/src/services/api.ts:27 | `"/a/b"` has the segments a and b. |
| ClientServer.OneSegment | frontend/src/services/api.ts:26 | `"/a"` has the single segment a. |
| ClientServer.ClientReachesCounterpart | frontend/src/services/api.ts:17-33 | With a valid token, every client call with a one-segment id reaches the server handler of the same name, the id becoming the `id` parameter. The exception is `getNoteById("tags")`, which reaches `getTags`. Register and login need no token. |
| ClientServer.AuthCallsLand | frontend/src/services/api.ts:17-22 | Register and login calls land, with or without a token. |
| ClientServer.RegisterLands | frontend/src/services/api.ts:19 | `POST /auth/register` reaches `register`. |
| ClientServer.LoginLands | frontend/src/services/api.ts:21 | `POST /auth/login` reaches `login`. |
| ClientServer.NoteCallsLand | frontend/src/services/api.ts:27-32 | The per-note calls and `getTags` land on their handlers. |
| ClientServer.NotesRoot | frontend/src/services/api.ts:26-29 | `GET`/`POST /notes` reach `getNotes`/`createNote`. |
| ClientServer.NoteIdPath | frontend/src/services/api.ts:27 | `"/notes/" + id` is dispatched as `/api/notes/<id>`. |
| ClientServer.AuthRoutes | backend/src/routes/authRoutes.ts:10-13 | Both auth routes are reached whatever the token. |
| NoteCard.SpliceWraps | frontend/src/features/notes/NoteCard.tsx:93-99 | The new text is the text before the selection, `before`, the selected text, `after`, then the rest. Its length grows by exactly the two markers. |
| NoteCard.SpliceSelectionAndInverse | frontend/src/features/notes/NoteCard.tsx:93-103 | The restored selection, shifted by `before`, covers exactly the originally selected text. The markers sit at their offsets. Removing them gives the original text back. |
| NoteCard.FiveParts | frontend/src/features/notes/NoteCard.tsx:94-99 | Each part of the five-part concatenation is found back at its offset. |
| NoteCard.Editor.InsertMarkdown | frontend/src/features/notes/NoteCard.tsx:88-105 | With no text area nothing changes. Otherwise the content is spliced, `after` defaulting to `before`, and the pending selection is shifted by the length of `before`. |
| NoteCard.Editor.constructor | frontend/src/features/notes/NoteCard.tsx:58-59 | The editor opens with the note's own title and content. |
| NoteCard.Editor.WordCount | frontend/src/features/notes/NoteCard.tsx:107 | The displayed word count is the number of maximal runs of non-whitespace characters. |
| NoteCard.FirstSpace | frontend/src/features/notes/NoteCard.tsx:50 | It is the index of the first whitespace character. |
| NoteCard.NonEmpty | frontend/src/features/notes/NoteCard.tsx:50 | `filter(Boolean)` keeps exactly the non-empty pieces. |
| NoteCard.RunStartsConcat | frontend/src/features/notes/NoteCard.tsx:50 | Word runs of a concatenation add up, given the character at the seam. |
| NoteCard.RunStartsAllSpace | frontend/src/features/notes/NoteCard.tsx:50 | An all-whitespace text has no words. |
| NoteCard.RunStartsNoSpace | frontend/src/features/notes/NoteCard.tsx:50 | A whitespace-free text is one word, or none when it is empty or continues a word. |
| NoteCard.SplitWsCountsWords | frontend/src/features/notes/NoteCard.tsx:50 | `split(/\s+/)` followed by `filter(Boolean)` leaves one piece per word. |
| NoteCard.PiecesStep | frontend/src/features/notes/NoteCard.tsx:50 | The pieces are the first piece followed by the pieces after the first whitespace run. |
| NoteCard.WordsStep | frontend/src/features/notes/NoteCard.tsx:50 | The words are the first word followed by the words after the first whitespace run. |
| NoteCard.RunThenRest | frontend/src/features/notes/NoteCard.tsx:50 | A text starting with whitespace is a whitespace run followed by what `trimStart` leaves. |
| NoteCard.WordRunRest | frontend/src/features/notes/NoteCard.tsx:50 | A word, a whitespace run, then the rest count one word more than the rest. |
| NoteCard.TrimStartKeepsWords | frontend/src/features/notes/NoteCard.tsx:50 | Leading whitespace does not change the word count. |
| NoteCard.TrimEndKeepsWords | frontend/src/features/notes/NoteCard.tsx:50 | Trailing whitespace does not change the word count. |
| NoteCard.TrimKeepsWords | frontend/src/features/notes/NoteCard.tsx:50 | `trim` does not change the word count. |
| NoteCard.CountWordsIsWords | frontend/src/features/notes/NoteCard.tsx:49-51 | `countWords` is the number of maximal non-whitespace runs. |
| NoteCard.NoWordsIffAllSpace | frontend/src/features/notes/NoteCard.tsx:49-51 | A text has no word runs exactly when it is all whitespace (after a word, exactly when the rest of that word is followed only by whitespace). |
| NoteCard.CountWordsZeroIffBlank | frontend/src/features/notes/NoteCard.tsx:49-51 | `countWords` is 0 exactly for empty or whitespace-only text. |
| NoteCard.ToolbarInsertionTriggersAutosave | frontend/src/features/notes/NoteCard.tsx:36-47 | Every toolbar button inserts a non-empty marker, so its insertion changes the content. |
| NoteCard.Editor.PressToolbar | frontend/src/features/notes/NoteCard.tsx:74 | A toolbar click on a mounted text area splices the button's markers in and always changes the content. When the content was the stored note's, the autosave guard is then due. |
| NoteCard.ToolbarInsertionCanRestoreStoredText | frontend/src/features/notes/NoteCard.tsx:74 | The guard compares with the stored note, not with the previous text: after the stored `**x**` is edited to `x`, Bold around `x` gives `**x**` again, and nothing is due. |
| AuthStore.InitialUser | frontend/src/store/authStore.ts:15-21 | The stored user is parsed. A parse error gives null. A missing key parses `'null'` and gives null. |
| AuthStore.InitialToken | frontend/src/store/authStore.ts:23 | The initial token is the stored token, with an absent or empty value becoming null. |
| AuthStore.Init | frontend/src/store/authStore.ts:25-28 | `isAuthenticated` starts true exactly when a non-empty token is stored, that is, exactly when there is a token. |
| AuthStore.Store.constructor | frontend/src/store/authStore.ts:25-28 | The store at page load is the state computed from storage. |
| AuthStore.Store.SetAuth | frontend/src/store/authStore.ts:30-34 | `setAuth` writes the user's JSON and the token to storage and sets user, token and `isAuthenticated = true`. |
| AuthStore.Store.Logout | frontend/src/store/authStore.ts:35-39 | `logout` removes both keys and clears all three fields. |
| AuthStore.LogoutIdempotent | frontend/src/store/authStore.ts:35-39 | Logging out twice is logging out once. |
| AuthStore.LogoutSurvivesReload | frontend/src/store/authStore.ts:15-39 | After a logout, a page reload gives the same signed-out state. |
| AuthStore.SetAuthSurvivesReloadIffToken | frontend/src/store/authStore.ts:23-34 | After `setAuth(u, t)` the store is authenticated. A reload restores exactly the same state exactly when `t` is non-empty. With an empty token, the reloaded store is not authenticated. |
| AuthStore.SetAuthThenLogout | frontend/src/store/authStore.ts:30-39 | Signing in and then out leaves the same storage as signing out alone. |
| BrowserStorage.LocalStorage.GetItem | frontend/src/store/authStore.ts:17 | `getItem` is the stored value, or null exactly when the key is absent. |
| BrowserStorage.LocalStorage.SetItem | frontend/src/store/authStore.ts:31-32 | `setItem` sets one key and leaves the others. |
| BrowserStorage.LocalStorage.RemoveItem | frontend/src/store/authStore.ts:36-37 | `removeItem` removes one key and leaves the others. |
| Dashboard.WithTag | frontend/src/pages/Dashboard.tsx:77 | The filter keeps exactly the notes whose tags include the tag. |
| Dashboard.FilteredNotes | frontend/src/pages/Dashboard.tsx:76-78 | A null or empty tag is falsy and shows all notes unchanged. Otherwise the filter shows exactly the notes carrying the tag. |
| Dashboard.WithTagConcat | frontend/src/pages/Dashboard.tsx:77 | Filtering distributes over concatenation, which with `WithTagSingle` fixes the order of the kept notes. |
| Dashboard.WithTagSingle | frontend/src/pages/Dashboard.tsx:77 | A single note is kept exactly when it carries the tag. |
| Dashboard.WithTagIdempotent | frontend/src/pages/Dashboard.tsx:77 | Filtering twice by the same tag is filtering once. |
| Dashboard.SaveKeepsPin | frontend/src/pages/Dashboard.tsx:52-56 | Saving an edited note from the Markdown editor's draft (title, content, tags) keeps its pin, id and owner and takes the draft's fields. A new note is created unpinned. |
| Dashboard.Page.Visible | frontend/src/pages/Dashboard.tsx:76-78 | Only loaded notes are shown, all of them when no tag is selected. |
| Dashboard.Page.AllNotesCount | frontend/src/pages/Dashboard.tsx:103-106 | The "All Notes" count is never less than the notes shown under any filter. |
| Dashboard.Page.NotesLoaded | frontend/src/pages/Dashboard.tsx:29 | A loaded note list replaces the page's notes. |
| Dashboard.Page.TagsLoaded | frontend/src/pages/Dashboard.tsx:40 | A loaded tag list replaces the page's tags. |
| Dashboard.Page.SelectTag | frontend/src/pages/Dashboard.tsx:101 | Selecting a tag, or null, sets the filter. |
| Dashboard.Page.HandleEdit | frontend/src/pages/Dashboard.tsx:62-65 | Editing a note opens the editor on it. |
| Dashboard.Page.HandleSaveNote | frontend/src/pages/Dashboard.tsx:47-60 | The save is an update of the note being edited, or a create when there is none. Only if it resolves do both refetches follow and `editingNote` get cleared. |
| Dashboard.Page.HandleDelete | frontend/src/pages/Dashboard.tsx:67-73 | Nothing is sent unless the user confirms. Then the delete is sent, and the refetches only if it resolves. |

## Left out

- Transport and concurrency: socket.io networking, CORS, asynchronous delivery and ordering across clients. The relay is modelled one handler invocation at a time.
- Room cleanup on disconnect: removal from rooms is socket.io's own work after `disconnecting`. `Realtime.RoomServer.Disconnected` states it as an assumption.
- Realtime.RoomServer.Connect: requires an unused socket id, because socket.io generates a fresh id for every connection.
- Crypto: bcrypt hashing and comparison, and JWT signing and verification (RFC 7519), are parameters: a hash, a comparison function, a token, and a verification function giving the claims.
- AuthController.Register: requires a non-empty hash, because a bcrypt hash is never empty.
- Mongoose and MongoDB I/O: `connectDB`, `async`/`await` and Express response objects are out. The model has a store held as a sequence of documents and a response datatype.
- Mongoose behaviour assumed, not modelled:
  - the email setters apply to query filters;
  - an update drops undefined keys and runs no validators;
  - a malformed ObjectId in a note path (a CastError) is not modelled.
- Request bodies: only string fields, or absent ones, are modelled. Non-string JSON values and the difference between null and undefined are left out.
- Note handler rejections: the note handlers catch nothing, so a failed `Note.create` is modelled as a rejected promise (`Rejected`). What Express then does with the request is left out.
- Token claims: a verified token whose payload has no `userId` leaves `req.userId` unset. The note handlers are modelled with the user id as a string, so that case is not followed past `protect`.
- NoteController.GetNotes: states pinned-first and the exact set of notes, but not the order within the pinned and unpinned groups. The `updatedAt` sort key is never stored (the Note schema has no timestamps), so that order is the database's.
- Timestamps: the `createdAt`/`updatedAt` fields the client type declares for notes do not exist on stored notes, so they are not modelled.
- Routing details: Express case-insensitive matching, trailing slashes, URL decoding and query strings are out. Paths are lists of exact segments.
- CORS preflights: `cors()` (backend/src/server.ts:16) answers every OPTIONS request before the routers and `protect` see it, and Express's own automatic OPTIONS answer is never reached. Neither is modelled; `Routes.ProtectGuardsNotes` is about the requests that reach the routers.
- Base URL: `VITE_API_URL` comes from the build environment. `ClientServer` assumes it ends in `/api`, so that a client path `/x` arrives as `/api/x`; another value is not modelled.
- ClientServer.ClientReachesCounterpart: requires ids that are one non-empty path segment. An id containing `/` is not modelled.
- Health route: the body of `GET /api/health` (`{status: "OK"}`) is not modelled; only its dispatch is.
- Editor timers and effects:
  - the autosave debounce timer and the selection-restore `setTimeout` are left out, and the restore is kept as the pending selection;
  - the reset effect when another note is opened is left out;
  - the title and content `onChange` handlers are plain assignments and are left out.
- charCount: `content.length` has no member of its own. Its change under an insertion is `NoteCard.SpliceWraps`'s length clause.
- NoteCard.Editor.AutosaveDue: the guard is a predicate with no contract. What it means after a toolbar click is `NoteCard.Editor.PressToolbar`'s last clause; `NoteCard.ToolbarInsertionCanRestoreStoredText` shows it is not due after every click.
- Strings: a character is a Unicode scalar value (a Dafny `char`), while JavaScript strings count UTF-16 code units. For text outside the Basic Multilingual Plane, such as emoji, the model's lengths and the editor's selection offsets differ from the browser's; UTF-16 offsets are not modelled. `toLowerCase` is modelled on ASCII letters only. `\s` and the line terminators are fixed character predicates, with no other Unicode case mapping.
- Browser storage and JSON: `localStorage` is a map. `JSON.stringify`/`JSON.parse` are a codec assumed to round-trip users and to parse `'null'`. Parsing of other JSON values is left out.
- Dashboard.SaveKeepsPin: holds for the draft type `handleSaveNote` declares. The handler sends whatever object it is given, and the rich editor's pin button (frontend/src/features/notes/NoteEditor.tsx:187) passes `{pinned: !note.pinned}` through it, which toggles the pin. That call is not modelled.
- Dashboard:
  - the server's answers are parameters: whether the save or delete resolved, and the notes and tags a refetch loads;
  - the loading flag, alerts, failed fetches (which change no state) and the order in which answers arrive are left out.
- UI files not modelled: the TipTap-based `NoteEditor.tsx`, the login and register forms, the router guard in `App.tsx`, and `main.tsx`. They hold rendering and library calls only.
