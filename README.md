# Travlr trip catalogue — a Dafny model of its decision logic

Travlr is a small Next.js travel-booking site. Visitors browse a catalogue of
trips, filtering and sorting it in the browser. Administrators sign in and
add or edit trips. This project models the parts of the site that decide
things, and proves what they promise:

- **The trip listing page's query engine** (`TripQuery`, built on `JsArray`, `Text` and `Numbers`).
  - The sort toggle and the filter record are the state of a `TripsPage` class.
  - The pipeline copies the fetched trips, filters the copy through up to five `filter` calls, and sorts it in place.
  - The sort is a stable insertion sort over an `array`, proved equal to a functional `InsertionSort`.
  - Proved: the result holds exactly the trips every active filter admits, each as often as fetched. It is ordered by the key in the chosen direction whenever no price is NaN. Ties keep their fetched order.
- **The trips endpoint and the Trip schema** (`TripsApi`, `TripModel`).
  - The collection is a `TripStore` class: a map from trip code to trip, plus the insertion order.
  - `GET` lists the collection; `POST` validates a JSON body and inserts the trip.
  - Proved:
    - the first absent field is reported, checking fields in the fixed order;
    - the range checks run in order;
    - every refusal leaves the store untouched;
    - a created trip satisfies the schema and has a fresh code.
- **The admin gate** (`Middleware`): a prefix test on the path, then token verification; the outcome is redirect or pass. The trips endpoint, whose `POST` adds trips, is not behind the gate: `Middleware.ApiTripsNotGated`.
- **Authentication** (`UserModel`, `AuthApi`).
  - The User document is a class: `setPassword` writes its hash, and `validPassword` and `generateJwt` read it.
  - The login and register routes run over a user collection keyed by normalised email, and set the session cookie.
  - Proved: login cannot tell an unknown email from a wrong password. Register changes the collection only when it succeeds, or when it answers 500 for a missing secret; in that case the new user stays stored. A fresh registration can later log in. The login's token signs the registered identity, and within the registration's own second it is the very token the registration returned.
- **Small string rules** (`TripCard`, `ContactPage`, `LoginPage`): the card's image source, alt text, date and edit link; the contact and login form validators; the login error message.

JavaScript semantics the code depends on are written out:

- `trim` and `\s`, with the full whitespace set.
- ASCII `toLowerCase`, `includes`, `startsWith`, and `<` on strings.
- `parseInt(s, 10)` and `parseFloat(s)` as prefix parsers, where `None` is NaN. Comparisons with NaN are false.
- Truthiness of optional strings.
- `Array.prototype.filter`, and `sort` as a stable sort.

The pieces the model cannot see are parameters:

- bcrypt and JWT signing are the functions of a `Crypto` value. `UserModel.Sound` states the only assumptions about them: a password matches its own hash, and a hash is never empty. Lemmas that need it take it as a `requires`.
- jose's `jwtVerify` is a function parameter that returns `None` for a token it rejects.
- Mongoose's cast of `start` to a date is an `isDate` parameter.
- `toLocaleDateString` is a `render` parameter.
- The clock is `nowMs`, and the environment (`JWT_SECRET`, `NODE_ENV`) is an `Env` value.

Descending order is not the exact reverse of ascending order. The code's
stable sort keeps tied trips in their original order in both directions.
Ratings 3, 5, 3 for A, B, C sort to A, C, B ascending and B, A, C
descending; `TripQuery.StableExample` proves this example. Night counts and
ratings are JSON `Number`s in the schema, not integers, so the model uses
`real` for them.

## Model

| member | source | states |
|---|---|---|
| TripQuery.NextSort | src/app/trips/page.js:43-49 | the new key is the clicked key; the direction is descending exactly when that key was already active and ascending |
| TripQuery.ReselectToggles | src/app/trips/page.js:43-49 | clicking the active key flips the direction, and clicking it twice restores the configuration |
| TripQuery.WithFilter | src/app/trips/page.js:51-57 | the named filter takes the new text and every other filter keeps its own |
| TripQuery.TripsPage.constructor | src/app/trips/page.js:11-18 | the page opens sorted by name ascending, with all five filters empty |
| TripQuery.TripsPage.HandleSort | src/app/trips/page.js:43-49 | the sort configuration becomes `NextSort` of the old one; the filters are unchanged |
| TripQuery.TripsPage.HandleFilterChange | src/app/trips/page.js:51-57 | only the named filter changes; the sort configuration is unchanged |
| TripQuery.TripsPage.FilteredAndSortedTrips | src/app/trips/page.js:59-118 | the shown list is the stable sort of the filtered trips under the current state |
| TripQuery.SearchHitMeaning | src/app/trips/page.js:63-69 | a trip matches the search iff the lowered term occurs at some index of its lowered name, resort or description, and that field is non-empty |
| TripQuery.SearchHit | src/app/trips/page.js:63-69 | a hit needs a non-empty name, resort or description at least as long as the term; `SearchHitMeaning` gives the exact condition |
| TripQuery.FilterTripsMeaning | src/app/trips/page.js:62-81 | the filter chain equals one filter by the conjunction of the active filters (empty inputs inactive); order is kept and each admitted trip keeps its count |
| TripQuery.FilterTrips | src/app/trips/page.js:62-81 | the filtered list is no longer than the input and holds only fetched trips every active filter admits; `FilterTripsMeaning` gives the exact result |
| TripQuery.NoFilterKeepsAll | src/app/trips/page.js:63-81 | with every input empty the list passes through unchanged |
| TripQuery.UnfilteredIsPermutation | src/app/trips/page.js:60-116 | with no filter the shown list is a permutation of the fetched list |
| TripQuery.GoesAfterMeaning | src/app/trips/page.js:108-114 | the comparator places a after b iff a's value is strictly beyond b's in the chosen direction |
| TripQuery.Compare | src/app/trips/page.js:85-115 | the comparator returns -1, 0 or 1, and a non-zero result only for two differing values neither of which is NaN; `GoesAfterMeaning` and `ComparatorTies` give its sign |
| TripQuery.ComparatorConsistent | src/app/trips/page.js:85-115 | on values that are not NaN the comparator is antisymmetric and "not after" is transitive |
| TripQuery.ComparatorTies | src/app/trips/page.js:108-114 | the comparator returns exactly 0 for trips with equal compared values, in both argument orders |
| TripQuery.InsertionSortOrdered | src/app/trips/page.js:85-115 | without NaN prices the sorted list is non-decreasing by the key when ascending and non-increasing when descending |
| TripQuery.SortKeepsTies | src/app/trips/page.js:85-115 | for every compared value, the trips having it come out in the order they went in |
| TripQuery.StableExample | src/app/trips/page.js:85-115 | ratings 3, 5, 3 sort to A, C, B ascending and B, A, C descending |
| TripQuery.SortedCount | src/app/trips/page.js:60-116 | each trip occurs in the shown list as often as in the fetched list if the filters admit it, else never |
| TripQuery.FilterAndSort | src/app/trips/page.js:59-118 | the sorted copy is the insertion sort of the filtered list; it holds exactly the admitted trips, ordered when comparable, ties in fetched order |
| JsArray.KeepCount | src/app/trips/page.js:63-81 | `filter` keeps every copy of an element that passes and none of one that fails |
| JsArray.Keep | src/app/trips/page.js:63-81 | `filter` returns no more elements than it got, each from the input and passing the test; `KeepCount` gives each element's count |
| JsArray.KeepKeep | src/app/trips/page.js:63-81 | two successive filters equal one filter by the conjunction |
| JsArray.InsertionSortPermutes | src/app/trips/page.js:85-115 | the sort returns a permutation of its input |
| JsArray.InsertionSort | src/app/trips/page.js:85-115 | the sort keeps the length; `InsertionSortPermutes`, `InsertionSortSorted` and `InsertionSortStable` give the rest |
| JsArray.InsertionSortSorted | src/app/trips/page.js:85-115 | under a consistent comparator no element of the result is placed after a later one |
| JsArray.InsertionSortStable | src/app/trips/page.js:85-115 | under a comparator that ties equal keys, each key's elements keep their relative order |
| JsArray.InsertAt | src/app/trips/page.js:85 | one pass of the in-place sort turns the array's prefix into the functional insertion of its next element, leaving the rest untouched |
| JsArray.SortInPlace | src/app/trips/page.js:85-116 | the array ends up holding the stable sort of what it held |
| Numbers.ParseIntOfNatText | src/app/trips/page.js:76-81 | `parseInt` of a natural number's decimal text gives that number back |
| Numbers.ParseInt | src/app/trips/page.js:76-81 | NaN exactly when no digit follows the leading whitespace and sign; a number without a minus is not negative; `ParseIntOfNatText` gives the round trip |
| Numbers.ParseFloatOfNatText | src/app/trips/page.js:70-75 | `parseFloat` of a natural number's decimal text gives that number back |
| Numbers.ParseFloat | src/app/trips/page.js:70-75 | NaN exactly when neither a digit nor a point and a digit follows the leading whitespace and sign; a number without a minus is not negative; `ParseFloatOfNatText` gives the round trip |
| Text.Includes | src/app/trips/page.js:65-67 | `includes` holds iff the needle occurs at some index |
| Text.Trim | src/app/contact/page.js:20-23 | the trim is a slice between whitespace-only margins, starting and ending with non-whitespace |
| Text.TrimBetween | src/app/contact/page.js:20-23 | the slice from the first to the last non-whitespace character is the trim |
| Text.TrimmedLength | src/app/contact/page.js:20-23 | the trimmed length is 0, or below 2, exactly when the text has that few non-whitespace characters |
| Text.EmailPatternMeaning | src/app/contact/page.js:21 | the single-scan test accepts exactly the strings `^\S+@\S+$` accepts |
| TripModel.CodesUnique | src/models/Trip.js:4-9 | in a valid collection no two stored trips share a code |
| TripModel.AddKeepsValid | src/models/Trip.js:3-50 | adding a valid trip under a fresh code keeps the collection valid and changes no other entry |
| TripsApi.FirstMissing | src/app/api/trips/route.js:30-34 | the index is that of the first absent field, with every earlier field present |
| TripsApi.MissingFieldMeaning | src/app/api/trips/route.js:26-34 | no field is reported iff all ten are present; otherwise the first absent one in the fixed order |
| TripsApi.MissingField | src/app/api/trips/route.js:26-34 | a reported field is one of the ten required fields and is absent from the body; `MissingFieldMeaning` gives which one |
| TripsApi.FirstAbsentFieldReported | src/app/api/trips/route.js:26-34 | a body with a code but no name reports `name` |
| TripsApi.ZeroNightsRejected | src/app/api/trips/route.js:31-39 | a night count of 0 passes the presence check and is refused by the range check |
| TripsApi.NightsCheckedBeforeRating | src/app/api/trips/route.js:37-42 | a bad night count is reported whatever the rating |
| TripsApi.PostOutcomeMeaning | src/app/api/trips/route.js:26-46 | a trip is created iff all fields are present, nights ≥ 1, rating in [1, 5], `start` is a date and the code is fresh; the created trip satisfies the schema |
| TripsApi.TripFromBody | src/app/api/trips/route.js:45 | the trip built from a complete body with nights and rating in range satisfies the schema; the stored code is the body's `code` text, non-empty when present |
| TripsApi.PostOutcome | src/app/api/trips/route.js:26-54 | the reply is never a listing; a created trip is the body's trip under a fresh code; a 409 only for a taken code; a missing field gives its 400; `PostOutcomeMeaning` gives the exact conditions |
| TripsApi.PostFailures | src/app/api/trips/route.js:30-54 | every failure is a 400 or a 409, and a 409 exactly when a valid body's code is taken |
| TripsApi.ListingMeaning | src/app/api/trips/route.js:8-13 | listing a valid store yields every stored trip exactly once and nothing else |
| TripsApi.TripStore.Get | src/app/api/trips/route.js:5-18 | 404 "Trips not found" iff the store is empty, otherwise every stored trip once |
| TripsApi.TripStore.FindMissingField | src/app/api/trips/route.js:30-34 | the loop reports the first absent required field, or none |
| TripsApi.TripStore.Post | src/app/api/trips/route.js:20-57 | the reply is `PostOutcome`; a created trip is added under its code and appended to the order; on every failure the store is unchanged |
| Middleware.VerifyToken | src/middleware.js:6-18 | a payload only with a token, a secret and a successful verification, and then the verifier's payload |
| Middleware.SomePrefix | src/middleware.js:27 | true iff the path starts with one of the prefixes |
| Middleware.IsGated | src/middleware.js:25-27 | a path is gated iff it starts with `/admin/list-trips`, `/admin/add-trip` or `/admin/edit-trip` |
| Middleware.Decide | src/middleware.js:20-38 | redirect to `/login` with `from` set to the path iff the path is gated and no payload verifies; otherwise pass |
| Middleware.UngatedPasses | src/middleware.js:27-37 | a path outside the admin prefixes passes whatever the cookie holds |
| Middleware.NoSessionRedirected | src/middleware.js:6-33 | without a token or a secret every gated path is redirected |
| Middleware.GatedExamples | src/middleware.js:25-27 | `/admin/add-trips` and `/admin/edit-trip/T1` are gated; `/admin`, `/admin/` and `/trips` are not |
| Middleware.ApiTripsNotGated | src/middleware.js:25-27 | `/api/trips` is not gated, so the gate passes every request to it whatever the cookie holds |
| UserModel.NormalizeEmailIdempotent | src/models/User.js:6-12 | trimming and lowercasing a stored email again changes nothing |
| UserModel.NormalizeEmail | src/models/User.js:6-12 | the stored email is no longer than the given one, has no whitespace at either end and no ASCII capital; `NormalizeEmailIdempotent` shows it is a fixed point |
| UserModel.Expiry | src/models/User.js:33-45 | `exp` is the whole number of seconds of the instant a week from now |
| UserModel.ExpiryIsAWeekAway | src/models/User.js:33-45 | `exp` is the current second plus 604800 |
| UserModel.User.constructor | src/models/User.js:5-19 | a new document stores its email trimmed and lowercased and its name trimmed, with no hash |
| UserModel.User.SetPassword | src/models/User.js:21-25 | a falsy password fails and leaves the hash; otherwise only the hash changes, to the cost-10 hash, which then validates under a sound bcrypt |
| UserModel.User.ValidPassword | src/models/User.js:27-30 | false for a falsy password or hash, otherwise bcrypt's comparison |
| UserModel.User.GenerateJwt | src/models/User.js:32-49 | no token without a secret; otherwise the signature of id, email, name and an `exp` one week of seconds ahead |
| AuthApi.SessionCookie | src/app/api/auth/login/route.js:28-34 | cookie `travlr-token` holding the token: HTTP-only, path `/`, `lax`, max-age 604800, secure outside development |
| AuthApi.UserStore.Login | src/app/api/auth/login/route.js:6-42 | 400 for a missing field; one and the same 401 for an unknown email and a wrong password; success iff the password validates and a secret exists, with the user's token and cookie; 500 for a valid login without a secret; the store is not modified |
| AuthApi.UserStore.Register | src/app/api/auth/register/route.js:6-43 | 400, 409 and validation failures leave the store unchanged; otherwise exactly one user is added with the trimmed name, normalised email and the password's hash; 201 with token and cookie iff a secret exists |
| AuthApi.UserStore.RegisterThenLogin | src/app/api/auth/register/route.js:20-34 | with a sound bcrypt and the same secret, a registration succeeds and a login at any later instant succeeds; the login's token signs the new id, normalised email and trimmed name with an expiry a week after the login, and equals the registration's token within the same second |
| UserModel.User.SameSecondSameToken | src/models/User.js:32-49 | two instants within the same second give the same token |
| TripCard.ImageSrc | src/app/components/TripCard.js:26 | an `http…` image is used as is, another non-empty image is looked up under `/images/`, none gives the placeholder |
| TripCard.ImageSrcShape | src/app/components/TripCard.js:26 | every image source is absolute or under `/images/` |
| TripCard.ImageSrcPrefixExample | src/app/components/TripCard.js:26 | `httpd.png` is taken for an address, since the test is a plain prefix |
| TripCard.ImageSrcLocalExample | src/app/components/TripCard.js:26 | `reef1.jpg` becomes `/images/reef1.jpg` |
| TripCard.AltText | src/app/components/TripCard.js:27 | the trip's name, or `Trip image` when it has none; never empty |
| TripCard.FormatDate | src/app/components/TripCard.js:3-16 | `N/A` for a falsy date, otherwise its locale rendering |
| TripCard.EditHref | src/app/components/TripCard.js:40-41 | a link only for admins, `/admin/edit-trip/` followed by the code |
| TripCard.EditLinkIsGated | src/app/components/TripCard.js:40-41 | every edit link leads to a page the admin gate protects |
| ContactPage.NameError | src/app/contact/page.js:20 | accepted iff the name has at least two non-whitespace characters; otherwise the fixed message |
| ContactPage.EmailError | src/app/contact/page.js:21 | accepted iff some `@` has a non-empty, whitespace-free run on each side; otherwise `Invalid email` |
| ContactPage.SubjectError | src/app/contact/page.js:22 | accepted iff the subject has a non-whitespace character |
| ContactPage.MessageError | src/app/contact/page.js:23 | accepted iff the span from the first to the last non-whitespace character is at least ten long |
| ContactPage.TrimmedSpan | src/app/contact/page.js:23 | the trimmed text is at least ten long iff such a span exists |
| ContactPage.InitialValuesFail | src/app/contact/page.js:13-23 | the empty form fails all four checks, each with its own message |
| ContactPage.Validate | src/app/contact/page.js:19-24 | a form with no error has a name of two or more non-whitespace characters, a non-blank subject, a message trimmed to ten or more, and an email with `@` and no whitespace; a short name and a blank subject get their messages; `InitialValuesFail` shows all four errors at once |
| LoginPage.EmailError | src/app/login/page.js:20 | the contact form's email rule and message |
| LoginPage.PasswordError | src/app/login/page.js:21 | accepted iff at least six characters, counted untrimmed |
| LoginPage.SixSpacesPass | src/app/login/page.js:21 | six spaces are an acceptable password |
| LoginPage.InitialValuesFail | src/app/login/page.js:15-21 | the empty login form fails both checks |
| LoginPage.ShownError | src/app/login/page.js:38-39 | the server's message, or `Login failed` when it sent none |

## Left out

- The database layer is left out: the connection, `find`, `create`, `findOne` and `save`. The collections are in-memory maps. Connection and driver failures, and the generic 500 replies they cause, are not modelled. The login route's 500 and the register route's 500 are modelled only for a missing `JWT_SECRET`.
- The user collection is keyed by the normalised email. This assumes, as Mongoose does, that the schema's `trim` and `lowercase` setters also apply to the `findOne({ email })` filter.
- The uniqueness of a user's email is kept by that keying. The unique index's duplicate error on a racing insert is not modelled, and neither is any concurrency.
- bcrypt's salt and cost are not modelled, nor jsonwebtoken's and jose's signatures and `exp` checking. They are the functions of `UserModel.Crypto` and the `jwtVerify` parameter, with only the round-trip assumption `UserModel.Sound`.
- Mongoose's `Date` cast of `start` is the `isDate` parameter. `start` is kept as the text it was given.
- `toLocaleDateString` is the `render` parameter, and its `catch` branch is not modelled.
- A request body for the trips endpoint holds only `undefined`, `null`, numbers and strings. Booleans, objects and arrays, and the schema errors they cause, are not modelled.
- A number's decimal text is carried with it, not computed from the value.
- The auth request fields are optional strings. Non-string JSON values there are not modelled.
- JSON numbers are exact `real`s. Floating-point rounding is not modelled.
- `Numbers.ParseFloat` does not read exponents (`1e3`), `Infinity`, or precision beyond the exact decimal value.
- `Text.Lower` lowercases ASCII letters only.
- String length counts code points, not UTF-16 units.
- `Text.StrLess` compares code points, not UTF-16 code units. The two orders differ between a character beyond U+FFFF and one in U+E000–U+FFFF, so name sorts can differ there.
- Trip documents stored under the earlier schema, without `durationNights` or `rating`, are not modelled: the `Trip` datatype always has both. In the page, `undefined >= n` is false, so the night and rating filters drop such documents, and when sorted by those keys they compare as ties with every trip.
- `UserModel.Expiry` does not model the daylight-saving shift of `setDate(getDate() + 7)`. A week is 604800 seconds.
- `TripQuery.InsertionSortOrdered` proves the ordering only when no compared price is NaN. With NaN the comparator is not a consistent order, and JavaScript leaves the result to the engine. The model's sort still returns a stable permutation in that case.
- The `sort` call is modelled as a stable insertion sort. Under a consistent comparator every stable sort gives this result.
- The trips fetched by the page are values of the `Trip` datatype, so a missing string field is the empty string. That empty string is what the page's `trip.name ? … : ''` and `trip.name && …` guards treat a missing field as.
- The following are framework plumbing and are not modelled:
  - the middleware's `matcher` regular expression;
  - `NextResponse` and `cookies()`;
  - React state hooks, `fetch`, the router;
  - the pages' loading and error rendering, and the trip card's loading placeholder;
  - the image `onError` fallback.
- The logout route is a single cookie write and is not modelled.
- The contact form's `handleSubmit` timers and status text are not modelled.
- `LoginPage.ShownError` covers only the message choice. The request and the redirect after a successful login are not modelled.
