# B2B data catalog: a verified model

This project models the logic of a small catalog web application. It has a
Next.js front end and a FastAPI back end over SQLite. A signed-in user
browses data products, searches and filters them, opens their details, and
adds them to or removes them from their own catalog.

The model covers:

- the dashboard page: the filter effect, the category list, the
  membership test, `authFetch` with its session handling, the initial
  load and the handlers (`frontend/app/dashboard/page.tsx`);
- the login page: its calls to the server, its error messages, its mount
  redirect and its submit handlers (`frontend/app/login/page.tsx`);
- the two session stores over `localStorage`. `frontend/lib/auth.ts`
  keeps one `"session"` record. The two pages keep a `"token"` key and a
  `"user"` key;
- the mock API of `frontend/lib/api.ts` and the search box and category
  select of `frontend/components/search-filters.tsx`;
- the server's identity checks and its product routes, over the three
  tables `users`, `products` and `user_products`
  (`backend/server.py`), with the data `backend/create_db.py` seeds.

`localStorage` is a `map<string, string>`. JSON is a small concrete codec
(`json.dfy`), and its round trip is proved rather than assumed. JavaScript
values are `Json.Value`, where `JNull` is `null` and `Json.Truthy` is
JavaScript truthiness. `String(v)`, and reading a property of `null`
(which throws), are written out in `http.dfy`.

Every remote call is a parameter: the server's reply (`Http.Reply`), which
is no response, a JSON body, a non-JSON body, or a failed status with its
body text. Each async handler is one method that runs to completion. The
browser (`Browser.Browser`) holds the store and a log of the pages visited.

The React components whose state changes are classes with `modifies`
clauses: `Dashboard.DashboardPage`, `Login.LoginPage` and
`SearchFilters.SearchFiltersWidget`. So is the server's database
(`Server.Database`). Each method is specified by pure functions of the old
state and the replies, and the properties are lemmas about those
functions.

## Model

| member | source | states |
|---|---|---|
| Auth.SetSession | frontend/lib/auth.ts:11-16 | with a window the `"session"` key holds the JSON text of `{token, user}`; without one nothing changes |
| Auth.ClearSession | frontend/lib/auth.ts:32-36 | with a window the `"session"` key is removed; without one nothing changes |
| Auth.GetAfterSet | frontend/lib/auth.ts:11-30 | `getSession()` after `setSession(t, u)` returns `{token: t, user: u}`, whatever was stored before |
| Auth.GetAfterClear | frontend/lib/auth.ts:18-36 | `getSession()` after `clearSession()` returns null |
| Auth.CorruptRecordIsNull | frontend/lib/auth.ts:18-30 | a stored record that does not parse reads as null; nothing is thrown |
| Auth.SetWritesOnlySession | frontend/lib/auth.ts:11-16 | `setSession` adds the `"session"` key only, keeps every other key, and what it leaves does not depend on an earlier session |
| Auth.ClearIdempotent | frontend/lib/auth.ts:32-36 | `clearSession` is idempotent and touches no other key |
| Auth.NoWindow | frontend/lib/auth.ts:11-36 | without a window `getSession` is null and both writers leave the store unchanged |
| TokenSession.SetSession | frontend/app/login/page.tsx:84-87 | the token goes under `"token"` and the user's JSON text under `"user"` |
| TokenSession.ClearSession | frontend/app/login/page.tsx:99-102 | both keys are removed |
| TokenSession.ParseUser | frontend/app/login/page.tsx:94 | an absent or empty user text is null; a text that does not parse throws `SyntaxError`, and only such a text does |
| TokenSession.SerializedUserParses | frontend/app/login/page.tsx:84-97 | the user record written by `setSession` parses back to itself |
| TokenSession.SetWritesTwoKeys | frontend/app/login/page.tsx:84-87 | `setSession` writes exactly `"token"` and `"user"`, the first holding the token and the second text that parses to the user, and keeps every other key |
| TokenSession.LoginGetAfterSet | frontend/app/login/page.tsx:84-97 | the login page's `getSession()` after `setSession(t, u)` returns `{token: t, user: u}` |
| TokenSession.DashboardGetAfterSet | frontend/app/dashboard/page.tsx:33-49 | the dashboard's `getSession()` after `setSession(t, u)` returns `{token: t, user: u}`, or null when `t` is empty |
| TokenSession.GetAfterClear | frontend/app/login/page.tsx:89-102 | after `clearSession()` the login page reads `{token: null, user: null}` and the dashboard reads null |
| TokenSession.ClearIdempotent | frontend/app/dashboard/page.tsx:51-54 | `clearSession` is idempotent and removes the two keys only |
| TokenSession.NoWindow | frontend/app/login/page.tsx:89-90 | without a window the login page reads `{token: null, user: null}` and the dashboard reads null |
| TokenSession.CorruptUserThrows | frontend/app/login/page.tsx:94 | a user text that does not parse makes the login page's reader throw always, and the dashboard's whenever a token is stored |
| Catalog.IncludesIff | frontend/app/dashboard/page.tsx:298 | `includes` holds exactly when the term occurs at some position |
| Catalog.ViewIsSubsequence | frontend/app/dashboard/page.tsx:289-307 | the filtered list is an order-preserving subsequence of `products` on the "all" tab and of `myProducts` otherwise |
| Catalog.ViewMembers | frontend/app/dashboard/page.tsx:289-307 | a product is shown exactly when it is in the tab's list, its lower-cased name or category contains the lower-cased term (if one is set), and its category equals the selected one (if one is set) |
| Catalog.ViewIdentity | frontend/app/dashboard/page.tsx:290-307 | with an empty term and no category the tab's list is shown unchanged |
| Catalog.CategoryFilterExact | frontend/app/dashboard/page.tsx:303-305 | with a category selected, a product is kept exactly when its category equals it |
| Catalog.CategoryIsCaseSensitive | frontend/app/dashboard/page.tsx:295-305 | "Financial" matches the search "financial" but not the category "financial" |
| Catalog.Distinct | frontend/app/dashboard/page.tsx:382 | `[...new Set(xs)]` has no duplicates and holds exactly the values of `xs` |
| Catalog.DistinctIsSubsequence | frontend/app/dashboard/page.tsx:382 | `[...new Set(xs)]` is a subsequence of `xs` |
| Catalog.DistinctFirstAppearance | frontend/app/dashboard/page.tsx:382 | `[...new Set(xs)]` lists its values in the order in which each first appears in `xs` |
| Catalog.Categories | frontend/app/dashboard/page.tsx:382 | the category list has no duplicates and holds exactly the categories of `products` |
| Catalog.IsAssigned | frontend/app/dashboard/page.tsx:385-387 | holds exactly when some product of the user's list has the id |
| Catalog.FirstIndexOf | frontend/app/dashboard/page.tsx:334 | the index `find` stops at: the first element with the id, or the length when there is none |
| Catalog.FindById | frontend/app/dashboard/page.tsx:334 | `find` returns a product exactly when one has the id, and then the first such |
| AuthFetch.Prepare | frontend/app/dashboard/page.tsx:63-72 | a request is sent exactly when the session has a non-empty token, and it carries the stored token; a user text that does not parse throws first |
| AuthFetch.Receive | frontend/app/dashboard/page.tsx:79-92 | an OK reply gives its body; a 401 gives "Session expired. Please login again."; another failed status gives the detail error of its body |
| AuthFetch.Outcome | frontend/app/dashboard/page.tsx:62-93 | a call succeeds exactly when a token was sent and the reply is OK; without a token the reply does not matter |
| AuthFetch.Settle | frontend/app/dashboard/page.tsx:79-92 | a 401 clears the two keys and goes to /login; other replies change nothing |
| AuthFetch.Call | frontend/app/dashboard/page.tsx:62-93 | one whole call: its result, the store after it and the pages visited |
| AuthFetch.NoSessionSendsNothing | frontend/app/dashboard/page.tsx:63-67 | with no token, or an empty one, the call fails with "No authentication token found" whatever the server would answer |
| AuthFetch.StoredTokenIsSent | frontend/app/dashboard/page.tsx:63-72 | the token `setSession` stored is the one sent |
| AuthFetch.AnsweredCallKeepsSession | frontend/app/dashboard/page.tsx:79-92 | a reply other than 401 leaves the store as it was and visits no page |
| AuthFetch.ExpiredSessionIsGone | frontend/app/dashboard/page.tsx:81-85 | after a 401 the next call sends nothing |
| AuthFetch.OnlyUnauthorizedClears | frontend/app/dashboard/page.tsx:81-85 | the store changes exactly when the reply is a 401 and a session key was there |
| AuthFetch.DetailSurfaces | frontend/app/dashboard/page.tsx:88-89 | a failed status other than 401 with body `{"detail": msg}`, `msg` non-empty, fails with `msg` |
| AuthFetch.FailureFallbacks | frontend/app/dashboard/page.tsx:88-89 | a body that is not JSON gives "Unknown error"; JSON without a truthy `detail` gives "API request failed"; a `null` body throws a `TypeError` |
| AuthFetch.ListDetailPrintsAsObject | frontend/app/dashboard/page.tsx:88-89 | a `detail` that is a list of one object, the usual validation error, surfaces as "[object Object]"; longer lists are not covered by this lemma |
| Dashboard.Loaded | frontend/app/dashboard/page.tsx:266-276 | both lists arrive exactly when a token was sent and both replies are OK, and then they are the two replies |
| Dashboard.Shown | frontend/app/dashboard/page.tsx:322-339 | with a stored token and an OK reply the dialog opens on the fetched product; otherwise on the first loaded product of that id, or on nothing |
| Dashboard.RefreshedIff | frontend/app/dashboard/page.tsx:345-361 | the user's list is replaced exactly when a session was there and both the action and the refetch succeeded, and then by the refetched list |
| Dashboard.FailedActionSkipsRefetch | frontend/app/dashboard/page.tsx:363-379 | a failed action sends no refetch: the list, the store and the pages visited do not depend on the refetch |
| Dashboard.ExpiryDuringAction | frontend/app/dashboard/page.tsx:345-379 | a 401 on the action, or on the refetch after a successful action, clears the session and visits /login once |
| Dashboard.ShownFallback | frontend/app/dashboard/page.tsx:333-339 | after a failed fetch the dialog opens exactly when a loaded product has that id, and then on such a product |
| Dashboard.LoadedIff | frontend/app/dashboard/page.tsx:266-282 | with a session the load gives both lists or neither, and a 401 on either reply clears the session |
| Dashboard.DashboardPage.constructor | frontend/app/dashboard/page.tsx:247-257 | every `useState` initial value, with the filter effect holding |
| Dashboard.DashboardPage.Refilter | frontend/app/dashboard/page.tsx:289-308 | `filteredProducts` becomes the view of the current tab, term and category |
| Dashboard.DashboardPage.Categories | frontend/app/dashboard/page.tsx:382 | the categories of all products, once each, never those of the user's list |
| Dashboard.DashboardPage.IsProductAssigned | frontend/app/dashboard/page.tsx:385-387 | holds exactly when some product of `myProducts` has the id |
| Dashboard.DashboardPage.Mount | frontend/app/dashboard/page.tsx:259-286 | without a session it goes to /login; with one it loads both lists or keeps the old ones, ends with `isLoading` false, and keeps the filter effect |
| Dashboard.DashboardPage.HandleViewProduct | frontend/app/dashboard/page.tsx:322-343 | the dialog state follows `Shown`; it is unchanged when nothing is shown; `isDetailLoading` ends false |
| Dashboard.DashboardPage.HandleAssignProduct | frontend/app/dashboard/page.tsx:345-361 | `myProducts` is replaced by the refetched list on success and unchanged otherwise; `products` is unchanged; `isActionLoading` ends false |
| Dashboard.DashboardPage.HandleUnassignProduct | frontend/app/dashboard/page.tsx:363-379 | as for assigning |
| Dashboard.DashboardPage.HandleSearch | frontend/app/dashboard/page.tsx:310-312 | sets the term and keeps the filter effect |
| Dashboard.DashboardPage.HandleCategoryFilter | frontend/app/dashboard/page.tsx:314-316 | sets the category and keeps the filter effect |
| Dashboard.DashboardPage.HandleTabChange | frontend/app/dashboard/page.tsx:318-320 | sets the tab and keeps the filter effect |
| Dashboard.DashboardPage.CloseDialog | frontend/app/dashboard/page.tsx:398 | closes the dialog and keeps the page's invariant |
| Dashboard.DashboardPage.Logout | frontend/app/dashboard/page.tsx:56-59 | clears the two keys and goes to /login |
| Login.Checked | frontend/app/login/page.tsx:17-36 | `login` fails with "Login failed" on any failed status, and `getCurrentUser` with "Failed to get user data"; an OK reply gives its body |
| Login.Register | frontend/app/login/page.tsx:38-67 | `register` succeeds exactly on an OK reply; an error body that does not parse throws `SyntaxError`; no response throws `TypeError`, and an OK reply that is not JSON `SyntaxError` |
| Login.SignIn | frontend/app/login/page.tsx:124-137 | a session is produced exactly when the login reply is OK and not `null` and the user reply is OK; it holds that user |
| Login.RegisterErrorText | frontend/app/login/page.tsx:160-162 | the message shown is never empty, and it is the thrown message when that is non-empty |
| Login.SignUp | frontend/app/login/page.tsx:150-158 | registering then signing in succeeds exactly when the registration and both sign-in calls succeed |
| Login.SignInStoresToken | frontend/app/login/page.tsx:130-136 | the `access_token` of the server's answer is the token stored |
| Login.MissingTokenIsUndefined | frontend/app/login/page.tsx:133-136 | an answer without `access_token` stores the text "undefined" |
| Login.RegisterDetail | frontend/app/login/page.tsx:60-63 | a server `{"detail": msg}` surfaces as `msg`; for every error body that parses, a truthy `detail` surfaces as `String(detail)`, a missing or falsy one as "Registration failed", and `null` throws a `TypeError` |
| Login.RegisterMessages | frontend/app/login/page.tsx:60-63 | a `detail` of `[]` gives the message `""`, and the page then shows the fallback text |
| Login.LoginAfterRegisterFails | frontend/app/login/page.tsx:150-162 | after a successful registration a failed login shows "Login failed" |
| Login.LoginPage.constructor | frontend/app/login/page.tsx:105-113 | the `useState` initial values |
| Login.LoginPage.Mount | frontend/app/login/page.tsx:116-122 | the page is marked mounted, and it goes to /dashboard exactly when the stored token is non-empty; a user text that does not parse throws first |
| Login.LoginPage.Enter | frontend/app/login/page.tsx:136-137 | stores the two keys and goes to /dashboard |
| Login.LoginPage.HandleLoginSubmit | frontend/app/login/page.tsx:124-143 | the session is stored only when both calls succeed; any failure shows "Invalid username or password. Please try again." and leaves the browser unchanged; `isLoading` ends false |
| Login.LoginPage.HandleRegisterSubmit | frontend/app/login/page.tsx:145-165 | the session is stored only when all three calls succeed; a failure shows its own message or the fallback; `isLoading` ends false |
| Login.LoginPage.ToggleMode | frontend/app/login/page.tsx:306-309 | switches the mode and clears the error |
| MockApi.Login | frontend/lib/api.ts:70-82 | succeeds exactly for "demo@example.com" with "password" and returns "mock-jwt-token" with the first user; otherwise fails with "Invalid credentials" |
| MockApi.GetProducts | frontend/lib/api.ts:84-93 | all of `mockProducts` with a session; "Not authenticated" without one |
| MockApi.GetProductById | frontend/lib/api.ts:95-109 | the product with the id; "Not authenticated" without a session, checked before the lookup; "Product not found" for an id not in the table |
| MockApi.UniqueIds | frontend/lib/api.ts:5-54 | the ids are 1 to 6, each once |
| MockApi.LookupIsExact | frontend/lib/api.ts:95-109 | with a session, ids 1 to 6 give the product at that position and every other id fails with "Product not found" |
| MockApi.DemoSignInGivesAccess | frontend/lib/api.ts:70-93 | storing the demo login's answer with `setSession` gives access to the products |
| MockApi.SignedOutIsRefused | frontend/lib/api.ts:98-101 | after `clearSession()`, or without a window, even an id in the table fails with "Not authenticated" |
| SearchFilters.CategoryValue | frontend/components/search-filters.tsx:35-37 | "all" reports null and every other value reports itself |
| SearchFilters.SelectValue | frontend/components/search-filters.tsx:68 | the select shows "all" for a null or empty selection and the selection otherwise |
| SearchFilters.Options | frontend/components/search-filters.tsx:73-78 | the option values are "all" followed by the categories in order |
| SearchFilters.SelectRoundTrip | frontend/components/search-filters.tsx:35-68 | choosing the shown option reports the selection back, with `""` read as none |
| SearchFilters.ChoiceIsShown | frontend/components/search-filters.tsx:35-68 | after choosing a non-empty value the select shows it |
| SearchFilters.AllCategoryUnselectable | frontend/components/search-filters.tsx:35-37 | a category named "all" cannot be selected: choosing it clears the category filter |
| SearchFilters.SearchFiltersWidget.constructor | frontend/components/search-filters.tsx:19 | the box starts empty and nothing has been reported |
| SearchFilters.SearchFiltersWidget.HandleSearchChange | frontend/components/search-filters.tsx:21-23 | typing sets the box and reports nothing |
| SearchFilters.SearchFiltersWidget.HandleSearchSubmit | frontend/components/search-filters.tsx:25-28 | reports exactly what is typed |
| SearchFilters.SearchFiltersWidget.HandleClearSearch | frontend/components/search-filters.tsx:30-33 | empties the box, hides the clear button and reports the empty term |
| SearchFilters.SearchFiltersWidget.HandleCategoryChange | frontend/components/search-filters.tsx:35-37 | reports the mapped category |
| Server.Authenticate | backend/server.py:114-120 | the user's row exactly when the name is known and the password verifies |
| Server.IssueToken | backend/server.py:189-202 | a token for the user exactly when authentication succeeds; 401 "Incorrect username or password" otherwise |
| Server.CurrentActiveUser | backend/server.py:132-154 | a caller is accepted exactly when the token names a known user who is not disabled; a disabled user gets 400 "Inactive user", anything else 401 |
| Server.IssuedTokenIdentifies | backend/server.py:132-202 | an issued token identifies its user, or is refused as inactive when that user is disabled |
| Server.FieldsRoundTrip | backend/server.py:246 | the compact field text the model stores reads back as the field list |
| Server.Decoded | backend/server.py:270-274 | a row's product keeps its id, name and category, and exists exactly when its fields decode |
| Server.StoredProductReadsBack | backend/server.py:241-247 | a product stored as a row reads back unchanged |
| Server.ListedMembers | backend/server.py:241-249 | a listed product comes from a selected row that decodes to it, and every such row is listed |
| Server.ListedStep | backend/server.py:400-404 | one more selected row that decodes appends its product; an unselected row adds nothing |
| Server.ListedFails | backend/server.py:400-406 | once one selected row fails to decode the whole list fails |
| Server.RowById | backend/server.py:258-267 | a row exactly when one has that id, and then a row of that id |
| Server.RowByIdFindsRow | backend/server.py:258-267 | with unique product ids, the lookup of a row's id finds that very row |
| Server.AssignAddsPair | backend/server.py:286-325 | assigning fails exactly for an unknown product, or a user without a row, leaving the pairs unchanged; otherwise it adds exactly the caller's pair, and it answers "already assigned" exactly when the pair was there |
| Server.AssignIdempotent | backend/server.py:309-322 | a second assign leaves the pairs as the first left them and answers "already assigned" |
| Server.UnassignRemovesPair | backend/server.py:350-366 | unassigning succeeds exactly when the pair is there and removes exactly it; otherwise 404 "Product not assigned to user or doesn't exist" and no change |
| Server.AssignThenUnassign | backend/server.py:309-366 | unassigning a newly assigned product restores the pairs |
| Server.UserProductsExact | backend/server.py:387-406 | the caller's products are exactly the decoded rows whose pair with the caller is recorded |
| Server.AssignedIsListed | backend/server.py:276-406 | after assigning, the product is among the caller's products; after unassigning, no product of that id is |
| Server.SeedProducts | backend/create_db.py:121-133 | six rows with ids 1 to 6, each a catalog product with its field list as compact JSON text |
| Server.SeedReadsBack | backend/create_db.py:121-133 | every seeded row reads back as the product it was written from |
| Server.DemoHoldsFirstThree | backend/create_db.py:150-155 | in the seeded database the demo user's products are products 1 to 3, in table order |
| Server.Database.Seeded | backend/create_db.py:60-155 | the six products, the demo user with id 1, the pairs (1,1), (1,2), (1,3), and `Valid` holding |
| Server.Database.Register | backend/server.py:157-187 | a taken name fails with 400 and changes nothing; a new one gets the next id and `disabled` false, and the answer leaves out the password; `Valid` is kept |
| Server.Database.Me | backend/server.py:204-206 | the caller's record exactly when the caller is accepted, never a disabled one |
| Server.Database.ProductById | backend/server.py:251-274 | a refused caller gets the 401 or 400 of the identity check; an accepted caller gets the product its row decodes to (500 when its fields do not decode) when a row has that id, and 404 "Product not found" when none has |
| Server.Database.Assign | backend/server.py:276-325 | the answer and the new pairs are those of the assign route; `Valid` is kept |
| Server.Database.Unassign | backend/server.py:327-366 | the answer and the new pairs are those of the unassign route; `Valid` is kept |
| Server.Database.Collect | backend/server.py:241-249 | the loop appends the selected rows' products in table order, and fails with 500 when one does not decode |
| Server.Database.AllProducts | backend/server.py:229-249 | an accepted caller gets every product in table order |
| Server.Database.UserProducts | backend/server.py:368-406 | an accepted caller gets the products paired with them, as `UserProductsOf` states |
| SessionSchemes.HomeTarget | frontend/app/page.tsx:4-12 | the home page goes to /dashboard exactly when `lib/auth` finds a session |
| SessionSchemes.HeaderLabel | frontend/components/dashboard-header.tsx:50 | the header's label is a truthy email or "Account" |
| SessionSchemes.TwoKeyWritesAreInvisible | frontend/app/login/page.tsx:84-102 | writing or clearing `"token"`/`"user"` does not change what `lib/auth` reads |
| SessionSchemes.SessionWritesAreInvisible | frontend/lib/auth.ts:11-36 | writing or clearing `"session"` does not change what either two-key reader reads |
| SessionSchemes.SignedInLooksSignedOut | frontend/app/page.tsx:5-9 | after signing in on the login page, home goes to /login, the header says "Account" and the mock API refuses the products |
| SessionSchemes.HeaderLogoutKeepsSignIn | frontend/components/dashboard-header.tsx:23-26 | after the header's logout both pages still read the signed-in token |
| SessionSchemes.AuthSessionIsSeen | frontend/components/dashboard-header.tsx:20-50 | a `lib/auth` session leads home to /dashboard and shows its email in the header |
| SessionSchemes.ServerRenderGoesToLogin | frontend/app/page.tsx:4-12 | rendered without a window, home always goes to /login |
| SessionSchemes.FixedHomeTarget | frontend/app/page.tsx:4-12 | corrected home page, rendered in the browser: /dashboard exactly when the two-key session is there, /login when it is not |
| SessionSchemes.FixedSessionRoundTrip | frontend/components/dashboard-header.tsx:23-26 | with the corrections, signing in leads home to /dashboard, and logging out leaves no token for the login page |

## Left out

- Requests themselves: URLs, headers, `fetch` and the request bodies. The reply to each call is a parameter. So the product id the assign and unassign handlers send is not used, and the credentials typed into the login form are not modelled either.
- The form fields of the login page (`username`, `email`, `fullName`, `password`) and their `onChange` handlers: they only hold text that is sent.
- Toasts, `console.log`/`console.error`, and `delay` in the mock API: presentation, logging and timing.
- JSX rendering, `product-card.tsx` and the dialog and grid components: presentation. `dashboard-header.tsx` and `app/page.tsx` appear only in `SessionSchemes`.
- Concurrency: each async handler runs to completion. The initial `Promise.all` reads the session for both calls before either reply is handled, and then handles the products reply before the user's list.
- The `activeTab` that `fetchData` reads is the initial "all" in the source's closure; the model reads the current tab and then runs the filter effect, which gives the same list.
- Navigation: `router.push` and `window.location.href` are both a page recorded in the browser's log, and the code after them runs on, as it does in the browser until the page is left.
- `Catalog.Lower`: lower-cases ASCII letters only, not the full Unicode `toLowerCase`.
- JSON: the codec has integers only, no whitespace, and string escapes for `\"` and `\\` only. So valid JSON with whitespace, decimals or other escapes reads as text that does not parse, where `JSON.parse` would accept it: `TokenSession.ParseUser` and `TokenSession.CorruptUserThrows` throw on such a stored user, and `AuthFetch.FailureFallbacks` gives "Unknown error" for such an error body. `Json.NumberText` writes integers the way JavaScript prints them for integers of moderate size, not in exponent form.
- Server.DecodeFields, Server.EncodeFields, Server.SeedProducts: the field lists are stored and read as compact JSON text. `json.dumps` in `backend/create_db.py:130` writes a space after each comma, which `json.loads` in `backend/server.py` accepts; the model's decoder refuses that text, so on rows in that form `ProductById`, `AllProducts` and `UserProducts` would answer 500 where the server returns the products. The model's seed rows use the compact form.
- TokenSession.SetSession, TokenSession.ClearSession: require a window, although `setSession` and `clearSession` in `frontend/app/login/page.tsx:84-102` have no window guard (without one `localStorage` would throw a `ReferenceError`); every caller runs in the browser, where there is one.
- Engine error messages: a `SyntaxError` or a `TypeError` carries no text.
- A 2xx reply whose JSON has the wrong shape is not modelled: the payload of a successful reply has the type the caller expects.
- bcrypt, JWT encoding, token expiry and the secret key: checking a password is the function parameter `verify`, and a bearer token is the username it decodes to, or none.
- SQLite: connections, transactions and SQL text. The tables are a map, a sequence and a set. The assignment route's "User not found" branch cannot be reached, because a route runs atomically and its caller was just found.
- The order of the `JOIN` in `get_user_products` is taken to be the order of `products`.
- `init_db` creates a `users` table without the `id` column the routes read. The model follows the schema of `backend/create_db.py`, which has one.
- CORS, uvicorn, `/protected-resource` and `/users`: not part of the catalog logic.

## Findings

| source | as written | input that shows it | evidently intended | confidence | as-written member | corrected member |
|---|---|---|---|---|---|---|
| frontend/app/page.tsx:5-9 | the home page reads the `"session"` key of `lib/auth`, which signing in never writes | sign in on the login page with a store that has no `"session"` key, then open `/` | home sends a signed-in user to /dashboard; the page also has no `"use client"`, so it first renders on the server without a window (`SessionSchemes.ServerRenderGoesToLogin`), and the fix also makes it a client component to read the store | high; not executed | SessionSchemes.SignedInLooksSignedOut | SessionSchemes.FixedHomeTarget |
| frontend/components/dashboard-header.tsx:23-26 | the header's logout removes only `"session"`, so the `"token"` and `"user"` keys stay | sign in, open a product's page, log out from its header during its first render: the page's effect at `frontend/app/dashboard/[id]/page.tsx:22-25` sends a two-key session to /login straight after, so the header can only be reached before that effect runs | logging out ends the session, so /login stays on the login page | high; not executed | SessionSchemes.HeaderLogoutKeepsSignIn | SessionSchemes.FixedSessionRoundTrip |
