# FacialAuthApp, modelled in Dafny

This project models the client-side core of FacialAuthApp, a Next.js app for a
worksite. Visitors are recognised from a camera still. Employees enrol their
photo under their name. A signed-in visitor gets a per-person task list kept in
the browser's local storage. The model covers these parts:

- the session helpers of `lib/auth.ts`: the cookie check, sign-in and sign-out
  cookie writes, and reading the `code` parameter;
- the session provider of `components/auth-provider.tsx`;
- the visitor authentication page of `components/facial-auth-app.tsx`;
- the employee enrolment form of `components/FacialUpload.tsx`;
- the task-list page of `app/todo/page.tsx`.

The model has one module per source file: `Auth`, `AuthProvider`,
`FacialAuthApp`, `FacialUpload` and `TodoPage`. Three modules support them:

- `Text`: string helpers and `Option`.
- `Browser`: the browser objects the components touch.
  - The cookie jar follows the parsing of section 5.2 of RFC 6265 and the
    reading of section 5.4, reduced to one domain and one path. Of the storage
    model of section 5.3 it keeps only the replacement of a same-name cookie
    and the removal by a non-positive Max-Age.
  - Also here: local storage, the window's location and history, the router,
    camera streams and tracks, and a log of sent HTTP requests.
- `Uri`: `encodeURIComponent` and `decodeURIComponent` from sections 19.2.6.4
  and 19.2.6.2 of ECMA-262, 2024 edition. Also the name-value reading of a query string from
  section 5.1 of the WHATWG URL Standard.

Component state is a Dafny class. Each state field is a class field, and each
handler is a method. The two camera components, `FacialUpload.Uploader` and
`FacialAuthApp.AuthApp`, gather their displayed fields in a snapshot datatype,
and each handler states the new snapshot as an update of the old one, with
the stream, the pending request and the request log stated beside it.
`TodoPage.Page` and `AuthProvider.Provider` have no snapshot: each of their
handlers may change only the fields its frame names, and states each of those
fields' new value.

An awaited network request splits its handler into two methods. The first sends
the request and records what is pending. The second runs the rest of the
handler once the request completes, and takes the request's outcome as a
parameter. These inputs are also parameters:

- whether the camera was granted;
- the data URL of the canvas;
- the blob read from a data URL;
- the file reader's result;
- `uuidv4()` and `Date.now()`.

A failed verification request does not show the error message. It is
caught inside `verifyAuthentication`, which returns status 500, and the page
then shows "not authorized". Only a failed upload, or a 200 answer whose body
is `null`, shows the error message (`FacialAuthApp.FailedIff`,
`FacialAuthApp.VerificationErrorRefuses`). In the page, a returned name
holding a lone UTF-16 surrogate also leads there, because
`encodeURIComponent` throws on it; model strings cannot hold such a name
(see "Left out").

## Model

| member | source | states |
|---|---|---|
| TodoPage.StorageKey | app/todo/page.tsx:22 | the key is "todos-" followed by the first name, ".", and the last name; a missing parameter reads as "null" |
| TodoPage.StorageKeyIsNotInjective | app/todo/page.tsx:22 | two different name pairs ("a.b","c" and "a","b.c") share one storage key, so they share one list |
| TodoPage.Parse | app/todo/page.tsx:29-35 | nothing stored reads as missing; text that is not JSON reads as invalid; a stored array reads back with its records |
| TodoPage.Initial | app/todo/page.tsx:28-50 | a stored non-empty array is adopted unchanged; a missing, unparsable, non-array or empty value gives the four predefined tasks; the result is never empty |
| TodoPage.ReloadIsStable | app/todo/page.tsx:28-57 | whatever the load adopted, after it is persisted the next load adopts the same list |
| TodoPage.TrimEmptyIffAllSpace | app/todo/page.tsx:60 | Add does nothing exactly when the input is empty or made only of JavaScript whitespace |
| TodoPage.AddTodo | app/todo/page.tsx:59-68 | blank input leaves list and box unchanged; otherwise the old list plus one new, not completed record with the fresh id and the untrimmed text, and the box is emptied |
| TodoPage.Toggle | app/todo/page.tsx:70-72 | same length, same ids and tasks in place; `completed` flips exactly on records with the id |
| TodoPage.ToggleTwice | app/todo/page.tsx:70-72 | toggling the same id twice restores the list |
| TodoPage.ToggleAbsent | app/todo/page.tsx:70-72 | toggling an id no record has changes nothing |
| TodoPage.ToggleCommutes | app/todo/page.tsx:70-72 | toggles of two ids commute |
| TodoPage.Delete | app/todo/page.tsx:74-76 | the result holds exactly the records whose id differs, and is no longer |
| TodoPage.DeleteAbsent | app/todo/page.tsx:74-76 | deleting an id no record has changes nothing |
| TodoPage.DeleteRemovesAll | app/todo/page.tsx:74-76 | no record with the id survives, duplicates included |
| TodoPage.DeleteIdempotent | app/todo/page.tsx:74-76 | deleting twice is deleting once |
| TodoPage.DeleteConcat | app/todo/page.tsx:74-76 | deletion distributes over concatenation, so relative order is kept |
| TodoPage.DeleteMultiset | app/todo/page.tsx:74-76 | every record with another id is kept exactly as many times as it occurred |
| TodoPage.Page.constructor | app/todo/page.tsx:21-25 | the page keys its storage by the names and starts with an empty list and box |
| TodoPage.Page.Persist | app/todo/page.tsx:55-57 | the key now holds the serialised list; other keys are unchanged |
| TodoPage.Page.LoadOrSeed | app/todo/page.tsx:28-52 | the list becomes `Initial` of what was stored; only in the seeding case is the key rewritten, with the predefined tasks |
| TodoPage.Page.Mount | app/todo/page.tsx:28-57 | after the first render's effects the list is `Initial` of what was stored, and storage holds that list under the key |
| TodoPage.Page.SetNewTask | app/todo/page.tsx:89 | the input box holds the typed text |
| TodoPage.Page.Add | app/todo/page.tsx:55-68 | list and box become `AddTodo` of the old ones; blank input leaves storage untouched, since no state is set and the persist effect does not run; otherwise the new list is persisted |
| TodoPage.Page.ToggleComplete | app/todo/page.tsx:70-72 | the list becomes `Toggle` of the old one and is persisted |
| TodoPage.Page.DeleteTodo | app/todo/page.tsx:74-76 | the list becomes `Delete` of the old one and is persisted |
| Auth.SplitRows | lib/auth.ts:8 | `split("; ")` always yields at least one row |
| Auth.SplitJoin | lib/auth.ts:8 | rows without ';' joined by "; " split back into the same rows |
| Auth.JoinSplit | lib/auth.ts:8 | rejoining the rows by "; " gives back the string |
| Auth.FindRow | lib/auth.ts:8 | a row is found exactly when some row starts with the prefix, and the one found is such a row |
| Auth.AuthRowIffOccurs | lib/auth.ts:5-9 | the check holds exactly when the cookie string starts with "auth_token=" or contains "; auth_token=" |
| Auth.RowStartsWithIff | lib/auth.ts:8 | a rendered row `name=value` starts with "auth_token=" exactly when the name is "auth_token" |
| Auth.IsAuthenticated | lib/auth.ts:5-9 | without a window (server rendering) the user is signed out; in a browser with a well-formed jar, signed in exactly when a cookie named "auth_token" is stored |
| Auth.JarCheck | lib/auth.ts:5-9 | for any jar the browser can hold, the check holds exactly when a cookie named "auth_token" is stored |
| Auth.NoRowResemblingTheName | lib/auth.ts:8 | an empty cookie string and a cookie "auth_tokenX" do not count |
| Auth.NoRowWithTheNameInside | lib/auth.ts:8 | "auth_token=" inside a value does not count |
| Auth.EmptyValueCounts | lib/auth.ts:8 | an "auth_token" cookie with an empty value still counts |
| Auth.TokenFromUrl | lib/auth.ts:22-28 | without a window there is no token; with one, it is the first `code` parameter, if any |
| Uri.GetParam | lib/auth.ts:24-25 | no value exactly when no pair has the name; otherwise the value of the first pair with it |
| Auth.SetCookieText | lib/auth.ts:13 | the sign-in assignment is "auth_token=", then the token as given (not encoded), then "; path=/; max-age=86400; SameSite=Lax" |
| Auth.SetCookieParsed | lib/auth.ts:13 | the sign-in assignment parses as the cookie "auth_token" with the token's text up to its first ';', blanks trimmed, and a Max-Age of 86400 |
| Auth.SetAttributesMaxAge | lib/auth.ts:13 | of the attributes `setAuthCookie` writes, the Max-Age that takes effect is 86400 |
| Auth.ClearCookieText | lib/auth.ts:18 | the sign-out assignment is "auth_token=" with no value, then "; path=/; max-age=0" |
| Auth.ClearCookieParsed | lib/auth.ts:18 | the sign-out assignment parses as "auth_token" with an empty value and Max-Age 0 |
| Auth.ClearAttributesMaxAge | lib/auth.ts:18 | of the attributes `clearAuthCookie` writes, the Max-Age that takes effect is 0 |
| Browser.AssignKeepsValid | lib/auth.ts:12-19 | whatever is assigned to `document.cookie`, the jar holds only well-formed cookies |
| Auth.SetAuthenticates | lib/auth.ts:12-14 | after `setAuthCookie` the cookie check holds, and every other cookie is kept; for a token holding ';' this relies on a jar that keeps every attribute's cookie, where a browser refuses an `HttpOnly` or foreign-`Domain` one (see "Left out") |
| Auth.ClearDeauthenticates | lib/auth.ts:17-19 | after `clearAuthCookie` the cookie check fails, and every other cookie is kept |
| Auth.SetAuthCookie | lib/auth.ts:12-14 | the jar is the old one with the sign-in assignment applied; it stays well formed and the user is authenticated, in a jar that does not refuse `HttpOnly` or foreign-`Domain` codes (see "Left out") |
| Auth.ClearAuthCookie | lib/auth.ts:17-19 | the jar is the old one with the sign-out assignment applied; it stays well formed and the user is not authenticated |
| AuthProvider.DefaultContext | components/auth-provider.tsx:14-18 | outside any provider the context is signed out and still loading |
| AuthProvider.Provider.constructor | components/auth-provider.tsx:22-24 | a provider starts signed out and loading |
| AuthProvider.Provider.Value | components/auth-provider.tsx:60 | the context carries the provider's flag and loading state |
| AuthProvider.Provider.Effect | components/auth-provider.tsx:28-51 | loading ends and the flag agrees with the cookie jar as modelled (see "Left out" for a `code` carrying `HttpOnly` or a `Domain`). With a non-empty `code`: the cookie is set to it, the user is signed in, the query is dropped with the path kept, and the router goes home only from "/login". Otherwise: the flag is read from the cookie and nothing else changes |
| AuthProvider.Provider.AdoptToken | components/auth-provider.tsx:32-45 | the branch of `Effect` for a `code` in the URL: the sign-in text is assigned to the jar, the flag is set and agrees with the jar as modelled (see "Left out" for a `code` carrying `HttpOnly` or a `Domain`), the query is dropped with the path kept, and the router goes home only from "/login" |
| AuthProvider.Provider.ReadCookie | components/auth-provider.tsx:46-48 | the branch of `Effect` without a `code`: the flag becomes the cookie check of the current jar and agrees with it |
| AuthProvider.Provider.Logout | components/auth-provider.tsx:53-57 | the sign-out cookie is written, the flag drops and agrees with the cookie, and the router goes to "/login" |
| FacialUpload.FileName | components/FacialUpload.tsx:91 | the key begins with the first name, ends in ".jpeg", and its length is the names' lengths plus 6 |
| FacialUpload.FileNameInjective | components/FacialUpload.tsx:91 | when first names contain no '_', equal keys mean equal names |
| FacialUpload.FileNameCollision | components/FacialUpload.tsx:91 | "Mary_Ann Lee" and "Mary Ann_Lee" get the same key, so one upload replaces the other |
| FacialUpload.UploadUrl | components/FacialUpload.tsx:101 | the PUT goes to the store's base address followed by the object key |
| FacialUpload.UploadUrlInjective | components/FacialUpload.tsx:91-101 | employees with different names (first names without '_') upload to different URLs |
| FacialUpload.Uploader.constructor | components/FacialUpload.tsx:13-24 | the form starts empty with the prompt, no still, no stream, nothing uploading |
| FacialUpload.Uploader.Phase | components/FacialUpload.tsx:233-255 | "Capture" exactly while no still is shown; "Home Page" exactly after a successful upload; "Upload" is enabled exactly when nothing is uploading |
| FacialUpload.Uploader.StartCamera | components/FacialUpload.tsx:37-47 | a granted camera becomes the stream; a refusal leaves the state |
| FacialUpload.Uploader.StopCamera | components/FacialUpload.tsx:49-54 | every track of the held stream stops and the stream is forgotten |
| FacialUpload.Uploader.SetFirstName | components/FacialUpload.tsx:31-35 | the first name changes and nothing else, except that the camera starts when the name changed, both names are now filled and no stream is held |
| FacialUpload.Uploader.SetLastName | components/FacialUpload.tsx:31-35 | the same for the last name |
| FacialUpload.Uploader.CaptureImage | components/FacialUpload.tsx:56-70 | with a frame, the still is shown and the camera's tracks stop; without one nothing changes |
| FacialUpload.Uploader.ResetCapture | components/FacialUpload.tsx:72-80 | the still and file are dropped and the prompt returns; the upload result is kept; the camera restarts only when both names are filled |
| FacialUpload.Uploader.UploadImage | components/FacialUpload.tsx:82-118 | without a still or a name: only the missing-details message. Otherwise the camera stops; if the blob was read, the file named after the employee is PUT to the store, with "Uploading..." shown and the upload pending |
| FacialUpload.Uploader.SettleUpload | components/FacialUpload.tsx:99-118 | any response gives the success message with the key and the final phase, and stops the stream the upload's handler saw; a network error gives the failure message; either way uploading ends |
| FacialUpload.Uploader.DragEnter | components/FacialUpload.tsx:121-125 | the drop zone is highlighted, nothing else changes |
| FacialUpload.Uploader.DragLeave | components/FacialUpload.tsx:127-131 | the highlight goes, nothing else changes |
| FacialUpload.IsImageType | components/FacialUpload.tsx:145-164 | a file counts as an image exactly when its MIME type is "image/" followed by any subtype; the drop and the file input use this same test |
| FacialUpload.Uploader.HandleDrop | components/FacialUpload.tsx:138-159 | the highlight goes; a first file that is an image and loads becomes the still and stops the camera; a non-image first file only sets the refusal message |
| FacialUpload.Uploader.ShowPicked | components/FacialUpload.tsx:147-153 | the reader's `onload` shared by `HandleDrop` and `HandleFileInput` (also lines 166-172): the loaded data URL becomes the still, the capture flag is set, every held track stops and the stream is cleared; nothing else changes |
| FacialUpload.Uploader.HandleFileInput | components/FacialUpload.tsx:161-176 | a first file that is an image and loads becomes the still and stops the camera; anything else changes nothing |
| FacialUpload.Uploader.GoHome | components/FacialUpload.tsx:248 | the router goes to "/" |
| FacialAuthApp.VisitorUrl | components/facial-auth-app.tsx:94 | the PUT address is the visitor image store followed by the key and ".jpeg" |
| FacialAuthApp.VerifyUrl | components/facial-auth-app.tsx:131 | the GET address is the verification endpoint's `objectKey=` followed by the key and ".jpeg" |
| FacialAuthApp.SameObject | components/facial-auth-app.tsx:93-131 | the object the GET asks about is the one the PUT stored exactly when both use the same key |
| FacialAuthApp.VerifyAuthentication | components/facial-auth-app.tsx:130-144 | status 200 comes only from a 200 answer with a readable body, which is passed on; a failed request or unreadable body gives 500 with an empty object |
| FacialAuthApp.Judge | components/facial-auth-app.tsx:106-127 | a 200 answer with an object admits, to the task-list route built from its names; a 200 answer with `null` fails, since reading a name from null throws; any other status refuses; names hold scalar values only (see "Left out") |
| FacialAuthApp.Outcome | components/facial-auth-app.tsx:96-144 | a network error on the PUT fails; otherwise the verdict is that of the verification reply: a refusal exactly when the GET failed, its body was unreadable or its status was not 200, and an admission only for a 200 object body, routed to the task list of its names; names hold scalar values only (see "Left out") |
| FacialAuthApp.AdmittedIff | components/facial-auth-app.tsx:96-144 | a visitor is admitted exactly when the upload got any response and the verification answered 200 with an object, over scalar-value names (see "Left out") |
| FacialAuthApp.FailedIff | components/facial-auth-app.tsx:96-144 | the error message appears exactly when the upload fails or the 200 answer's body is `null`, over scalar-value names (see "Left out") |
| FacialAuthApp.VerificationErrorRefuses | components/facial-auth-app.tsx:103-142 | a failed verification request is shown as a refusal |
| FacialAuthApp.ForbiddenRefused | components/facial-auth-app.tsx:111-116 | a 403 answer is a refusal |
| FacialAuthApp.JaneDoeAdmitted | components/facial-auth-app.tsx:105-110 | a 200 answer for Jane Doe routes to "/todo?firstName=Jane&lastName=Doe" |
| FacialAuthApp.TodoRoute | components/facial-auth-app.tsx:110 | the route is the page "/todo", then "?", then the query setting `firstName` and `lastName` to the encoded names; that this query reads back as exactly those two pairs is `RouteQuery` |
| FacialAuthApp.RouteQuery | components/facial-auth-app.tsx:110 | the route's query reads back as exactly two pairs, the names encoded |
| Uri.EncodedIsInert | components/facial-auth-app.tsx:110 | an encoded name holds no '&', '=', '+', '#' or '?', so it cannot add or break a parameter |
| Uri.DecodeEncode | components/facial-auth-app.tsx:110 | decoding an encoded name gives the name back |
| FacialAuthApp.AdmittedOpensOwnList | components/facial-auth-app.tsx:110 | the task list opened for an admitted visitor reads back the returned names, and so uses the storage key "todos-<first>.<last>" |
| FacialAuthApp.AuthApp.constructor | components/facial-auth-app.tsx:10-18 | the page starts with the prompt, no still, no stream, signed out, nothing uploading |
| FacialAuthApp.AuthApp.Phase | components/facial-auth-app.tsx:164-177 | "Capture" exactly while no still is shown; "Authenticate" is enabled exactly when nothing is in flight |
| FacialAuthApp.AuthApp.StartCamera | components/facial-auth-app.tsx:30-40 | a granted camera becomes the stream; a refusal leaves the state |
| FacialAuthApp.AuthApp.StopCamera | components/facial-auth-app.tsx:42-52 | every track of the held stream stops and the stream is forgotten |
| FacialAuthApp.AuthApp.Mount | components/facial-auth-app.tsx:25-28 | the camera starts; the registered cleanup keeps the stream of the first render |
| FacialAuthApp.AuthApp.Unmount | components/facial-auth-app.tsx:25-52 | the cleanup stops only the stream its render saw; when that was none, the stream and its tracks stay as they are |
| FacialAuthApp.AuthApp.UnmountReleasingCamera | components/facial-auth-app.tsx:25-52 | leaving the page stops every track of the stream held now |
| FacialAuthApp.UnmountLeavesCameraOn | components/facial-auth-app.tsx:25-28 | mount with a granted camera, then unmount: the camera's track is still live |
| FacialAuthApp.UnmountReleasingStopsCamera | components/facial-auth-app.tsx:25-52 | the same visit through the corrected cleanup leaves the track stopped |
| FacialAuthApp.AuthApp.CaptureImage | components/facial-auth-app.tsx:54-68 | with a frame, the still is shown and the camera's tracks stop; without one nothing changes |
| FacialAuthApp.AuthApp.ResetCapture | components/facial-auth-app.tsx:70-78 | the still, file and verdict are cleared, the prompt returns, and the camera restarts |
| FacialAuthApp.AuthApp.Authenticate | components/facial-auth-app.tsx:80-101 | without a still, or when the blob cannot be read, nothing changes. Otherwise the file `<uuid>.jpeg` is made, "Authenticating..." is shown signed out, and the still is PUT under a fresh visitor key |
| FacialAuthApp.AuthApp.ShowError | components/facial-auth-app.tsx:118-124 | signed out, with the error message and its alert |
| FacialAuthApp.AuthApp.SettleUpload | components/facial-auth-app.tsx:96-127 | any response sends the verification GET for the same key; a network error shows the error and ends the attempt |
| FacialAuthApp.AuthApp.SettleVerification | components/facial-auth-app.tsx:103-127 | the page ends as `Judge` of the verification reply says. Admitted: signed in and routed to the task list. Refused: signed out with the not-authorized message and alert. Failed: the error. Either way nothing is in flight. Names hold scalar values only (see "Left out") |
| Browser.StopTracks | components/facial-auth-app.tsx:48 | every track of the stream is stopped |

## Left out

- Concurrency. Requests are never cancelled, and two completions do not
  overlap. Each request is settled by an explicit method call, one at a time,
  in the order the caller chooses.
- The camera, `canvas.toDataURL`, `fetch(dataUrl).blob()` and `FileReader`.
  They are outside the program. Their outcomes are parameters, and the
  pixels are not modelled.
- `uuidv4()` and `Date.now()`. They are non-deterministic, so they are
  parameters, and their uniqueness is not modelled.
- JSON. Stored task lists are a parse result, because stringify followed by
  parse is the identity on these records. The verification body is `null`, or
  an object with optional string names. A name that is not a string, which
  the page would encode through its string form, is not modelled.
- TodoPage.Initial: a stored array whose elements are not task records, such
  as `[1]` or `[{"title":"x"}]`, is adopted as it is by the page. The stored
  value only holds arrays of records, so this says nothing about such values.
- TodoPage.Page.LoadOrSeed: the same gap as `TodoPage.Initial`, for the load
  effect.
- TodoPage.Page.Mount: the same gap as `TodoPage.Initial`, for the first
  render's effects.
- TodoPage.ReloadIsStable: the same gap as `TodoPage.Initial`; a reload of
  such a value is not covered.
- Auth.SetAuthenticates: the jar stores an assignment whatever its
  attributes say. The `code` parameter is percent-decoded, so a code such as
  `x%3B%20HttpOnly` or `x%3B%20domain%3Dother.example` carries "; HttpOnly" or
  "; domain=other.example" into the assignment. A browser then ignores the
  whole cookie: an HttpOnly cookie written from a script is dropped (section
  5.3, step 10 of RFC 6265), and a Domain other than the page's host is
  refused (section 5.3, step 6). The model stores the cookie for such a code,
  so this lemma promises a check that a real browser would fail.
- Auth.SetAuthCookie: the same gap as `Auth.SetAuthenticates`. For a code
  carrying an HttpOnly attribute or a foreign Domain, it ensures the user is
  authenticated, while a browser stores no cookie.
- AuthProvider.Provider.AdoptToken: the same gap as `Auth.SetAuthenticates`.
  For such a code the page sets the flag to signed in while a browser stores
  no cookie. The model stores it, so its ensures say the flag and the jar
  agree, and in a browser they would not.
- AuthProvider.Provider.Effect: the same gap as `AdoptToken`, for the branch
  with a `code` in the URL.
- FacialAuthApp.Judge: names are strings of Unicode scalar values. A
  JavaScript string from `JSON.parse` can hold a lone UTF-16 surrogate, as in
  `{"firstName":"\ud800","lastName":"x"}`. For such a name
  `encodeURIComponent` throws a URIError (facial-auth-app.tsx line 110), after
  `setAuth(true)` at line 108. The catch at lines 118-124 then shows the error
  message, signed out, and no route is pushed. The model cannot hold such a
  name, so it has no input on which this happens.
- FacialAuthApp.Outcome: the same gap as `FacialAuthApp.Judge`. The page
  fails on a lone-surrogate name where no model input corresponds.
- FacialAuthApp.AdmittedIff: the same gap as `FacialAuthApp.Judge`. The
  "exactly when" holds over scalar-value names only. A 200 object with a
  lone-surrogate name is not admitted by the page.
- FacialAuthApp.FailedIff: the same gap as `FacialAuthApp.Judge`. The page
  also shows the error for a 200 object with a lone-surrogate name, and the
  iff does not cover that case.
- FacialAuthApp.AuthApp.SettleVerification: the same gap as
  `FacialAuthApp.Judge`. For a lone-surrogate name the page ends signed out
  with the error message, not signed in and routed.
- The request headers. A request is its verb, URL and body file.
- Cookies:
  - Only the Max-Age attribute is read. `Path`, `Domain`, `Secure`,
    `SameSite` and `HttpOnly` are parsed past and not stored, and so the
    refusals of section 5.3 steps 6 and 10 (a foreign `Domain`, an `HttpOnly`
    cookie written from a script) do not happen in the model.
  - There is no clock, so a positive Max-Age keeps the cookie for good, and
    only a zero or negative Max-Age removes it at once.
  - The `Expires` attribute is not read.
- `URLSearchParams` percent-decodes leniently and reads '+' as a space. The
  model reads the query with the strict decoder of ECMA-262. The two agree on
  everything `encodeURIComponent` produces, since that output holds no '+'
  and only well-formed escapes.
- Server rendering for the component modules. `typeof window` is modelled only
  in `lib/auth.ts`, where the code tests for it.
- Console logging, the video element (`srcObject`, `pause`), canvas sizing,
  `preventDefault` and `stopPropagation`.
  - `FacialUpload.tsx` lines 133-136 (`handleDragOver`) does nothing else, so
    it has no model.
- The "Add Another Image" button (`FacialUpload.tsx` line 251). It reloads
  the page, which starts the form again as its constructor does.
- Rendering markup, including the HTML inserted with `dangerouslySetInnerHTML`.
  It is kept as a string field.
- `lib/api.ts`, the route pages under `app/` other than the task list,
  `navbar.tsx`, `token-handler.tsx` and the protected-route wrapper. They are
  not part of this model.
- `window.location.search` is held as the list of pairs `URLSearchParams`
  reads from it. The characters of the query string itself are not modelled.

## Findings

| source | as written | input that shows it | evidently intended | confidence | as-written member | corrected member |
|---|---|---|---|---|---|---|
| components/facial-auth-app.tsx:25-28 | the mount effect registers `() => stopCamera()` from the first render, whose `stream` is still `null` because `getUserMedia` has not resolved, so the cleanup never stops the camera | open the page with a granted camera, then navigate away | leaving the page stops the camera's tracks | high, not executed | FacialAuthApp.UnmountLeavesCameraOn | FacialAuthApp.UnmountReleasingStopsCamera |
