# gamebucks: a Dafny model of the client state machine and the server store

gamebucks lets a user search the app store for mobile apps, open one, log in or register,
and submit and read multi-axis reviews. This project models two parts of it:

- **The client** (`frontend/src/App.tsx`). The `App` component's state is one immutable
  record (`AppModel.State`): search results and loading flag, selection, review form, review
  flags, the review list, auth token, mode, form and error, and the persisted `token` slot of
  local storage. Every handler is a pure function of that state and the network `Outcome` it
  met: `Throws`, or `Response(ok, body)`. Handlers that React renders part-way through (search,
  review submit, auth submit) are split into a start part and a finish part, plus the composed
  step. `StarRating` maps a rating to five `Full | Partial(percent) | Empty` stars.
- **The server** (`backend/main.py`). The app-store search mapping works over JSON values. The
  SQLite database is three abstract tables (`Database.Db`): `games` maps a trackId to a game,
  `user_reviews` is a sequence of rows, and `users` maps a username to a row. Requests are
  functions from a database to a `Reply` (the new database and the result).

Collaborators become parameters:
- `parseFloat` is a function `string -> Number`, where `Number` is a real or NaN.
- SHA-256 and the JWT codec are the fields of `Accounts.Crypto`.
- `uuid4` values and clock readings are explicit arguments.
- `fetch`, `res.json()` and local storage become `Outcome` values and the `storedToken` field.

`AppEvents.Step` applies the composed handlers, one event at a time, and `Run` applies a
sequence of events. `AppEvents.Enabled` states separately which events the rendered controls
allow; only `AppEvents.OfferedSubmitEndsLoading` uses it.

In these places the code behaves as follows:
- A selected result's id falls back to `trackId ?? id`.
- The review list is fetched only when `trackId` is truthy. A thrown fetch is not caught and
  leaves the list as it was, even when it belonged to the previous item
  (`AppEvents.StaleReviewsAfterThrow`).
- Search never looks at `res.ok`.
- Submitting with nothing selected returns with `reviewLoading` still true.
- The review draft is never reset.
- An auth submit with no mode chosen goes to the login endpoint.
- Any id the server binds into SQL must fit SQLite's 64-bit INTEGER; otherwise the request
  fails with a 500.

## Model

| member | source | states |
|---|---|---|
| `StarRating.Round` | frontend/src/App.tsx:19 | `Math.round` gives the integer within half of x, halves rounding up |
| `StarRating.StarAt` | frontend/src/App.tsx:16-38 | star i is Full iff rating >= i, Empty iff rating <= i-1, otherwise Partial with a percent in [0,100] within half of (rating-(i-1))*100 |
| `StarRating.Stars` | frontend/src/App.tsx:15-39 | exactly five stars; star k+1 is Full iff rating >= k+1, Empty iff rating <= k, Partial iff k < rating < k+1; a partial percent is in [0,100] and is (rating-k)*100 rounded |
| `StarRating.StarsFor` | frontend/src/App.tsx:187 | a present rating r draws `Stars(r)`, a missing one draws `Stars(0)` (`rating ?? 0`); always five stars |
| `StarRating.FullCount` | frontend/src/App.tsx:15-16 | the full-star count without the loop: the floor of the rating clamped to 0..5 |
| `StarRating.StarsOrdered` | frontend/src/App.tsx:15-39 | stars never increase left to right, and at most one star is partial |
| `StarRating.StarsShape` | frontend/src/App.tsx:15-39 | the first FullCount stars are full, no later star is full, and every star after the next one is empty |
| `StarRating.PartialIffFractional` | frontend/src/App.tsx:18-19 | a partial star exists iff 0 < rating < 5 and the rating is not whole |
| `StarRating.StarsClamp` | frontend/src/App.tsx:15-39 | rating <= 0 gives five empty stars; rating >= 5 gives five full stars |
| `StarRating.MissingRatingIsEmpty` | frontend/src/App.tsx:199 | an absent rating draws five empty stars |
| `StarRating.StarsExample` | frontend/src/App.tsx:15-39 | 3.4 draws Full, Full, Full, Partial(40), Empty |
| `AppModel.Init` | frontend/src/App.tsx:45-64 | the first render takes both token slots from local storage; query, results, review list and error text are empty, the draft is all zeros, nothing is selected, loading, successful or in an auth mode |
| `AppSearch.EditQuery` | frontend/src/App.tsx:171 | typing sets the query and nothing else |
| `AppSearch.SearchStart` | frontend/src/App.tsx:85-86 | while the search is in flight, loading is true and results are empty; nothing else changes |
| `AppSearch.SearchFinish` | frontend/src/App.tsx:87-94 | after the request loading is false; results are [] on a throw or a falsy body, else the body; nothing else changes |
| `AppSearch.HandleSearch` | frontend/src/App.tsx:83-95 | loading ends false on every path; results are the parsed body when there is one, whatever the status; results are empty iff the call threw, the body is falsy, or it is empty; nothing else changes |
| `AppSearch.SearchIgnoresStatus` | frontend/src/App.tsx:88-90 | a non-ok response with a body gives the same state as an ok one |
| `AppSearch.SearchForgetsPrevious` | frontend/src/App.tsx:86-93 | the new results depend only on the outcome, not on earlier results |
| `AppSearch.SelectionId` | frontend/src/App.tsx:181 | a selection's id is trackId when present, else id |
| `AppSearch.Select` | frontend/src/App.tsx:179-182 | clicking a card selects a copy of it whose trackId is `trackId ?? id`; nothing else changes |
| `AppSearch.Close` | frontend/src/App.tsx:193 | the backdrop (and the Close button at line 242) clears the selection and nothing else |
| `AppSearch.SelectReplaces` | frontend/src/App.tsx:179-182 | selecting a then b is the same as selecting b alone: one slot, replaced and never stacked |
| `AppSearch.CloseUndoesSelect` | frontend/src/App.tsx:242 | closing after a selection leaves the same state as closing without it |
| `AppSearch.SelectionIdFallback` | frontend/src/App.tsx:181 | the selected copy keeps a present trackId, otherwise takes id; it has no id iff both are missing |
| `AppReviews.ReviewsFetchId` | frontend/src/App.tsx:68-69 | a review request is sent iff something is selected and its trackId is truthy; it asks for that nonzero id |
| `AppReviews.RefreshReviews` | frontend/src/App.tsx:66-81 | no request gives []; an ok response gives exactly the server's data; a non-ok response gives []; a throw keeps the old list; nothing else changes |
| `AppReviews.RefreshWithoutRequestIgnoresOutcome` | frontend/src/App.tsx:76-78 | without a request, the outcome has no effect on the state |
| `AppReviews.RefreshResultSources` | frontend/src/App.tsx:70-77 | the list is [], an ok response's data, or (only after a throw) the old list |
| `AppReviews.ReviewChange` | frontend/src/App.tsx:97-100 | the named field becomes the raw text (comment) or parseFloat of it (other fields); every other field and all other state are unchanged |
| `AppReviews.BearerHeader` | frontend/src/App.tsx:121 | the header is "Bearer " plus the token, or "Bearer null" with no token |
| `AppReviews.ReviewRequestFor` | frontend/src/App.tsx:106-124 | a request exists iff something is selected; its payload has the selection's trackId, name, title, description, images, rating (or null), and the form as it is; it carries the bearer header |
| `AppReviews.SubmitStart` | frontend/src/App.tsx:104-105 | while the submit is in flight, loading is true and success is false |
| `AppReviews.SubmitFinish` | frontend/src/App.tsx:116-127 | if the handler returned early nothing changes; otherwise loading ends false and an ok response sets success, any other outcome leaves it; nothing else changes |
| `AppReviews.CloseDuringSubmit` | frontend/src/App.tsx:106 | the early return is decided at the start, so closing during the request still lets a successful response lower loading and set success |
| `AppReviews.HandleReviewSubmit` | frontend/src/App.tsx:102-128 | with no selection, loading stays true; otherwise loading ends false; success holds iff there is a selection and the response is ok; the form is never changed; nothing else changes |
| `AppReviews.SuccessfulSubmitRefreshes` | frontend/src/App.tsx:81 | a successful submit flips the success flag, so the list refreshes for the same item |
| `AppReviews.FailedSubmitRefreshesOnlyThroughReset` | frontend/src/App.tsx:105-126 | a failed or thrown submit's response triggers no refresh; its start does exactly when the previous submit had succeeded, through the reset of the success flag, so overall the list is refreshed iff the previous submit succeeded |
| `AppReviews.RefreshDue` | frontend/src/App.tsx:81 | an unchanged state never schedules a refresh, and when no refresh is scheduled the id that would be fetched is unchanged |
| `AppReviews.SubmitKeepsDraft` | frontend/src/App.tsx:114 | a submit leaves the next submit's request unchanged, because the draft is kept |
| `AppAuth.OpenAuth` | frontend/src/App.tsx:212-213 | the Login and Register buttons set the mode and nothing else |
| `AppAuth.AuthChange` | frontend/src/App.tsx:130-132 | typing sets the named credential only |
| `AppAuth.AuthRequestFor` | frontend/src/App.tsx:138-145 | register mode posts JSON to /register; every other mode (none included) posts a form-encoded body to /login; both carry the auth form |
| `AppAuth.AuthStart` | frontend/src/App.tsx:136 | the error text is cleared before the request |
| `AppAuth.AuthFinish` | frontend/src/App.tsx:145-156 | success stores the token in both slots and closes the form; otherwise token and mode stay and the error is the detail, "Authentication failed", or "Network error" on a throw |
| `AppAuth.HandleAuthSubmit` | frontend/src/App.tsx:134-157 | an ok response with a truthy token stores it in memory and in storage and closes the form; otherwise the token and mode are unchanged and the error is the detail, or "Authentication failed", or "Network error" on a throw; the error is empty iff the exchange succeeded |
| `AppAuth.Logout` | frontend/src/App.tsx:159-162 | both token slots are cleared; the mode and everything else are unchanged |
| `AppAuth.RejectedLoginShowsDetail` | frontend/src/App.tsx:152 | a rejection with a detail leaves the session unchanged and shows the detail verbatim |
| `AppAuth.NetworkErrorDistinct` | frontend/src/App.tsx:154-156 | a network failure's message differs from any rejection's unless the detail equals it |
| `AppAuth.LoginThenLogout` | frontend/src/App.tsx:147-162 | login followed by logout leaves no token in either slot and the form closed |
| `AppEvents.Enabled` | frontend/src/App.tsx:174-242 | controls other than search, result cards and the list refresh exist only while a result is selected; the review form and Logout only with a token, Login/Register only without one; Save only with a payload to send and no save in flight |
| `AppEvents.StepKeepsSessionInSync` | frontend/src/App.tsx:148-161 | every event keeps the in-memory token equal to the stored one |
| `AppEvents.RunKeepsSessionInSync` | frontend/src/App.tsx:61 | from the first render on, memory and storage agree after any run of events |
| `AppEvents.DraftChangesOnlyByEditing` | frontend/src/App.tsx:97-128 | runs without form edits leave the draft unchanged, submits included |
| `AppEvents.OfferedSubmitEndsLoading` | frontend/src/App.tsx:227-238 | a submit the page offers (selection, token, Save enabled) always lowers the loading flag and sends "Bearer " plus the token |
| `AppEvents.StaleReviewsAfterThrow` | frontend/src/App.tsx:67-80 | after a's reviews load, selecting b and a thrown fetch still show a's reviews |
| `Json.Get` | backend/main.py:101 | `dict.get`: the value for a present key, otherwise null |
| `Json.GetOr` | backend/main.py:103 | `dict.get` with a default: the value for a present key, otherwise the default |
| `SearchMapping.MapApp` | backend/main.py:100-107 | each entry field is read from its store key (null when absent), the title from trackCensoredName when that key is present, else trackName, and images are the 100, 512 and 60 artwork |
| `SearchMapping.MapAppFields` | backend/main.py:100-107 | title is trackCensoredName when that key is present, even as null, and else equals name; there are always three image entries, null where the artwork is missing |
| `SearchMapping.MapAppReadsOnlyUsedKeys` | backend/main.py:100-107 | two records that agree on the eight read keys map to the same entry |
| `SearchMapping.SearchApps` | backend/main.py:93-108 | an empty query fails with 422; a non-object reply fails; no results key gives []; a results list gives one entry per record, in order, or fails iff a record is not an object; other shapes follow Python iteration |
| `TextOrder.Le` | backend/main.py:175 | a prefix is ordered before the longer text, and a non-empty text is ordered before another only if the other is non-empty and its first character is not smaller |
| `TextOrder.LeReflexive` | backend/main.py:175 | text order is reflexive |
| `TextOrder.LeTotal` | backend/main.py:175 | any two texts are comparable |
| `TextOrder.LeTransitive` | backend/main.py:175 | text order is transitive |
| `Database.Join` | backend/main.py:141 | Python's join: no parts give "", one part is itself, two or three parts have the separator between neighbours |
| `Database.JoinSnoc` | backend/main.py:141 | appending a part to a non-empty list appends the separator and the part, so the separator stands between every two neighbours |
| `Database.EraseAll` | backend/main.py:76-85 | all three tables are empty and well formed, with the erased status |
| `ReviewStore.CreateReview` | backend/main.py:125-167 | success iff the game id fits SQLite's integer and the review id is new; failure is a 500 and changes nothing; success appends exactly one row (fresh id, zero user id, fields from the request, created_at now, updated_at null) and returns id and created_at; a game row is added only if absent; stored games never change; users never change |
| `ReviewStore.GameOf` | backend/main.py:133-143 | the game row takes name, title, description and rating from the request and the images joined with commas |
| `ReviewStore.Project` | backend/main.py:174 | the listed review carries exactly the row's six ratings, comment and created_at |
| `ReviewStore.Matching` | backend/main.py:175 | the filter keeps at most all rows, nothing when no row has the game id, and every row when all do |
| `ReviewStore.CreateReviewKeepsWellFormed` | backend/main.py:48-63 | storing a review keeps review ids unique and every review pointing at a stored game |
| `ReviewStore.InsertDesc` | backend/main.py:175 | inserting into a newest-first list keeps it newest first and adds exactly that element |
| `ReviewStore.SortDesc` | backend/main.py:175 | sorting gives a newest-first permutation of its input |
| `ReviewStore.GetReviewsForGame` | backend/main.py:169-179 | fails with 500 iff the id does not fit SQLite's integer; otherwise a permutation of that game's projected rows, newest first |
| `ReviewStore.MatchingExactlyThatGame` | backend/main.py:173-176 | a review is listed iff some row of that game projects to it |
| `ReviewStore.CreatedReviewIsListed` | backend/main.py:147-164 | after a store, the game's listing gains exactly the new review; other games' listings are unchanged |
| `ReviewStore.NothingListedAfterErase` | backend/main.py:80-81 | after erase_all no game lists a review; the next review re-creates only its own game, or fails with nothing stored when its id is out of range |
| `Accounts.VerifyPassword` | backend/main.py:188-189 | a password verifies iff its hash equals the stored text |
| `Accounts.HashPassword` | backend/main.py:185-186 | the hash is the collaborator's SHA-256 hex digest of the password |
| `Accounts.CreateAccessToken` | backend/main.py:191-196 | the token is the encoding of claims whose subject is the user and which expire 3600 seconds after now |
| `Accounts.VerifyOwnHash` | backend/main.py:185-189 | verify_password(p, hash_password(p)) always holds |
| `Accounts.GetCurrentUser` | backend/main.py:212-220 | a token succeeds iff it decodes and names a subject, giving that subject; otherwise 401 "Invalid credentials" |
| `Accounts.Register` | backend/main.py:222-237 | fails with 400 "Username already exists" iff the username or user id is taken, and then changes nothing; otherwise adds exactly that user with the hashed password, keeps the other users, and returns a bearer token for the username |
| `Accounts.RegisterAddsOneUser` | backend/main.py:230 | a successful registration grows users by exactly one |
| `Accounts.RegisterKeepsWellFormed` | backend/main.py:65-72 | registration keeps user ids unique |
| `Accounts.Login` | backend/main.py:239-249 | an empty username or password is refused with 422 by the form parsing; otherwise succeeds iff the user exists and the password verifies, giving a bearer token for the username, and fails with 400 "Incorrect username or password" |
| `Accounts.RegisterThenLogin` | backend/main.py:227-246 | after registering with a non-empty username and password, logging in with them succeeds |
| `Accounts.UsernamesUnique` | backend/main.py:229-234 | registering a username again fails and leaves the database unchanged |
| `Accounts.IssuedTokenIdentifiesUser` | backend/main.py:191-196 | with a codec that reads back what it signs, an issued token authenticates as its subject |
| `Accounts.LoginTokenIdentifiesUser` | backend/main.py:248 | with such a codec, a login token authenticates as the user who logged in |
| `Accounts.NoLoginAfterErase` | backend/main.py:82 | after erase_all every login fails, with 400 when the credentials are non-empty |

## Left out

- JSX rendering, CSS and the partial star's style text: only the star kind and percent are modelled.
- `fetch`, `res.json()`, `localStorage`, the iTunes `requests.get`, SQLite connections, `init_db` and CORS: these are I/O. Each becomes an `Outcome` argument, an explicit reply value, or an abstract table.
- SHA-256, JWT signing and checking, `uuid4` and `datetime.utcnow`: these are foreign library and clock calls, passed in as parameters. Token expiry is inside the `decode` parameter.
- Async interleaving and stale responses overtaking newer ones: each handler is atomic given its outcome.
- Requests that never settle: `Step` applies a handler's start and finish together. `SearchStart` and `SubmitStart` show the loading flags raised while a request is pending, but a run of events cannot stop between them.
- `Accounts.Login`: FastAPI's structured 422 detail for a missing form field is a fixed text here.
- React's effect scheduling: `RefreshDue` states when the list effect is due, comparing selections by value. React compares by object identity, so reselecting the same result also refreshes.
- IEEE-754 arithmetic: ratings are `real`, and NaN ratings in `StarRating` are not modelled.
- `parseFloat` of arbitrary text: it is a parameter returning a real or NaN.
- Form field names: they are a closed enumeration. The source would add any other input name to the form as a new key.
- Value shapes on the client: results and payloads carry the TypeScript-declared types, and the untyped auth reply is modelled as an optional token and an optional detail text. A non-array search body, a non-string `detail`, and null strings are not modelled.
- The query's URL encoding and the store URL text are not modelled.
- `read_root` and the server's `/logout`: constant messages with no logic.
- `SearchMapping.SearchApps`: pydantic's structured 422 detail is a fixed text here. The failure of `requests` or of the store's JSON is not modelled.
