# Next.js 15 starter template — the logic behind the pages, in Dafny

This project models the parts of the starter template that hold logic rather
than markup, and proves properties of them:

- the in-memory todo resource served under `/api/todos`: a process-wide list
  seeded with three todos, its `TodoSchema` validation rule, and the GET, POST,
  PUT and DELETE handlers with their status codes (`TodoApi`);
- the client todo list operations that `useTodos` and `TodoProvider` both
  define (add, toggle, delete, clear completed, mark all), the three derived
  counts, and the all/active/completed view of the advanced todo component
  (`Todos`);
- the persisted `TodoProvider`: loading from and saving to the
  `next-15-todos` storage key, and the `useTodoContext` guard (`TodoContext`);
- the `AuthProvider` state machine (user, isAuthenticated, isLoading, demo
  mode), its transitions and the `useAuthProtection` redirect rule (`Auth`);
- the error classifier `parseApiError`, the `logError` skip rule and the
  `handleApiError` rethrow/fallback policy (`ErrorHandler`);
- the security helpers: `sanitizeHtml`, the hexadecimal encoding of
  `generateNonce`, `validateRedirect` and `generateCSP` (`Security`);
- theme validation and the derived theme flags of the theme provider
  (`Theme`);
- the `throttle` rate limiter (`Throttle`).

Shared string helpers (ECMAScript whitespace, `trim`, `startsWith`,
`includes`, UTF-16 length, the decimal rendering of `Date.now()`) are in
`Strings`; `Option` and `Result` are in `Wrappers`.

Everything the code gets from its environment is an input: the clock
(`Date.now()` ids, throttle times), the random bytes of the nonce, the
outcome of each HTTP request (resolved with a response, or rejected with an
error), the `prefers-color-scheme` media query, and the same-origin test of
`validateRedirect` (a predicate parameter). Browser storage is a map field;
the router is an output naming the route pushed. JSON is abstracted: a request
body is malformed, `null`, another non-object value, or an object whose fields
are absent, a string, a boolean or some other value; stored todo text is
either a serialized list or text that does not parse.

Behaviour of the code worth noting:

- PUT runs the full `TodoSchema`, so `text` is required on every update; an
  update carrying only `completed` is rejected with 400.
- PUT's `completed: body.completed ?? old` keeps an explicit `false`; only an
  absent flag falls back to the old value.
- GET treats any `completed` query value other than `"true"` as a request for
  the incomplete todos.
- POST does not trim the text, and ids come from the clock, so they are not
  assumed to be unique. toggle and delete act on every todo carrying the id,
  and server DELETE removes every match but returns the first.

## Model

| member | source | states |
|---|---|---|
| `TodoApi.ValidateText` | src/app/api/todos/route.ts:21 | `text` passes exactly when it is a string of 1 to 100 UTF-16 code units, and then is kept unchanged; a failure is reported against `text` |
| `TodoApi.ValidateCompleted` | src/app/api/todos/route.ts:22 | `completed` passes exactly when absent or boolean, with false when absent |
| `TodoApi.ValidateTodo` | src/app/api/todos/route.ts:20-23 | the schema accepts exactly a valid text with an absent or boolean flag, and yields that text and the defaulted flag; a failure lists one or two issues |
| `TodoApi.ValidateBody` | src/app/api/todos/route.ts:51 | a parsed body that is not an object fails as a whole; an object is checked field by field |
| `TodoApi.FindIndex` | src/app/api/todos/route.ts:96 | `findIndex`: none exactly when no todo has the id; otherwise the position of the first todo with it |
| `TodoApi.Updated` | src/app/api/todos/route.ts:103-107 | the updated todo keeps its id, takes the body's text, and takes the body's flag when present (an explicit false included), otherwise keeps the old one |
| `TodoApi.TodoStore.constructor` | src/app/api/todos/route.ts:6-10 | the list starts as the three seed todos |
| `TodoApi.TodoStore.Get` | src/app/api/todos/route.ts:29-39 | 200 with the whole list in stored order when `completed` is absent, else exactly the todos whose flag equals `completed == "true"`, so any other value lists the incomplete ones; the list is not changed |
| `TodoApi.TodoStore.Post` | src/app/api/todos/route.ts:46-76 | malformed JSON gives 400 "Invalid JSON", a failed schema gives 400 with the issues, both leaving the list unchanged; otherwise 201 with one todo appended at the end carrying the clock's id, the untrimmed text and the flag defaulting to false, earlier entries untouched |
| `TodoApi.TodoStore.Put` | src/app/api/todos/route.ts:78-119 | malformed JSON gives 400, a `null` body 500, a falsy id 400, a failed schema (text required) 400, an unknown id 404, in that order, all leaving the list unchanged; otherwise only the first todo with the id is replaced by its update and returned with 200 |
| `TodoApi.TodoStore.Delete` | src/app/api/todos/route.ts:121-145 | a missing or empty id gives 400 and an unknown id 404, neither changing the list; otherwise 200 with the first todo carrying the id, every todo with it removed and the rest kept in order |
| `TodoApi.DeleteRemovesAll` | src/app/api/todos/route.ts:138 | after the removal no todo carries the deleted id |
| `TodoApi.ShortTextValid` | src/app/api/todos/route.ts:20-23 | any text of 1 to 50 characters passes the schema with the given or defaulted flag |
| `TodoApi.FindAppended` | src/app/api/todos/route.ts:64 | a todo appended after todos without its id is the one `findIndex` finds |
| `Todos.ByStatus` | src/hooks/useTodos.ts:50-51 | `filter` on the completed flag: an order-preserving subsequence holding only todos with that flag |
| `Todos.ByStatusMembers` | src/hooks/useTodos.ts:50-51 | a todo is selected exactly when it is in the list and has the flag |
| `Todos.ByStatusMultiset` | src/hooks/useTodos.ts:50-51 | each todo with the flag is selected as often as it occurs, and no other |
| `Todos.ByStatusNone` | src/hooks/useTodos.ts:36 | when no todo has the flag, nothing is selected |
| `Todos.WithoutId` | src/hooks/useTodos.ts:32 | `filter` on the id: exactly the todos with another id, in order |
| `Todos.WithoutIdMultiset` | src/hooks/useTodos.ts:32 | each todo with another id is kept as often as it occurs, and none with the id |
| `Todos.TimestampId` | src/hooks/useTodos.ts:18 | the id made from the clock is a non-empty string |
| `Todos.InitialTodos` | src/hooks/useTodos.ts:9-10 | the list starts as the supplied todos, or empty by default |
| `Todos.AddTodo` | src/hooks/useTodos.ts:12-23 | text that trims to empty leaves the list unchanged; otherwise exactly one todo is appended with the trimmed (non-empty) text, not completed, earlier entries unchanged |
| `Todos.ToggleTodo` | src/hooks/useTodos.ts:25-29 | every todo with the id has its flag flipped; length, ids, texts, order and other todos are unchanged |
| `Todos.DeleteTodo` | src/hooks/useTodos.ts:31-33 | removes exactly the todos with the id, keeping the rest in order |
| `Todos.ClearCompleted` | src/hooks/useTodos.ts:35-37 | keeps exactly the incomplete todos, in order |
| `Todos.MarkAllCompleted` | src/hooks/useTodos.ts:39-41 | every flag becomes the given value (true by default); length, ids, texts and order are kept |
| `Todos.CountsAddUp` | src/hooks/useTodos.ts:50-52 | completedCount + activeCount is the length of the list |
| `Todos.ToggleTwice` | src/hooks/useTodos.ts:25-29 | toggling the same id twice restores the list |
| `Todos.ToggleUnknown` | src/hooks/useTodos.ts:27 | toggling an id no todo carries changes nothing |
| `Todos.DeleteUnknown` | src/hooks/useTodos.ts:32 | deleting an id no todo carries changes nothing |
| `Todos.ClearCompletedIdempotent` | src/hooks/useTodos.ts:35-37 | clearing twice is clearing once |
| `Todos.ClearCompletedCounts` | src/hooks/useTodos.ts:35-37 | after clearing, nothing is completed and the active count is unchanged |
| `Todos.MarkAllCounts` | src/hooks/useTodos.ts:39-41 | marking all completed leaves no active todo, and marking all incomplete leaves no completed one |
| `Todos.MarkAllLastWins` | src/hooks/useTodos.ts:39-41 | two mark-all calls in a row equal the second alone, so true then false leaves every flag false with ids and texts kept |
| `Todos.AddTodoCounts` | src/hooks/useTodos.ts:12-23 | adding makes exactly one more active todo, or none for blank text, and never changes the completed count |
| `Todos.ByStatusAppend` | src/hooks/useTodos.ts:15-22 | appending a todo appends it to the filtered view exactly when it has the flag |
| `Todos.CompletedCount` | src/hooks/useTodos.ts:50 | at most the length of the list, and zero exactly when no todo is completed |
| `Todos.ActiveCount` | src/hooks/useTodos.ts:51 | at most the length of the list, and zero exactly when every todo is completed |
| `Todos.TotalCount` | src/hooks/useTodos.ts:52 | the total is the completed count plus the active count |
| `Todos.Shows` | src/components/todo/AdvancedTodo.tsx:31-35 | 'all' shows every todo; 'active' and 'completed' show exactly the todos whose flag is false, respectively true |
| `Todos.InitialView` | src/components/todo/AdvancedTodo.tsx:29-35 | the component starts on 'all', which shows the whole list |
| `Todos.FilteredTodos` | src/components/todo/AdvancedTodo.tsx:31-35 | the view is an order-preserving subsequence holding exactly the todos the filter shows |
| `Todos.FilteredTodosViews` | src/components/todo/AdvancedTodo.tsx:24-35 | 'all' shows the whole list; 'active' and 'completed' show exactly the incomplete and completed todos in order, and their lengths are activeCount and completedCount |
| `Todos.ViewsPartition` | src/components/todo/AdvancedTodo.tsx:32-33 | the 'active' and 'completed' views partition the list, counting multiplicity |
| `TodoContext.TodoProvider.constructor` | src/context/todo-context.tsx:25 | the provider starts with an empty list |
| `TodoContext.TodoProvider.Mount` | src/context/todo-context.tsx:28-46 | a stored list replaces the state; an absent key or unparseable text leaves it; the key then holds the serialization of the list |
| `TodoContext.TodoProvider.Save` | src/context/todo-context.tsx:40-46 | the key holds the serialization of the current list and no other key changes |
| `TodoContext.TodoProvider.AddTodo` | src/context/todo-context.tsx:48-59 | the list becomes that of the shared add operation; blank text writes nothing, otherwise the list is saved |
| `TodoContext.TodoProvider.ToggleTodo` | src/context/todo-context.tsx:61-65 | the list becomes that of the shared toggle, then is saved |
| `TodoContext.TodoProvider.DeleteTodo` | src/context/todo-context.tsx:67-69 | the list becomes that of the shared delete, then is saved |
| `TodoContext.TodoProvider.ClearCompleted` | src/context/todo-context.tsx:71-73 | the list becomes that of the shared clear, then is saved |
| `TodoContext.TodoProvider.MarkAllCompleted` | src/context/todo-context.tsx:75-77 | the list becomes that of the shared mark-all (default true), then is saved |
| `TodoContext.TodoProvider.Value` | src/context/todo-context.tsx:79-93 | the exposed list and counts, whose completed and active counts add up to the total |
| `TodoContext.UseTodoContext` | src/context/todo-context.tsx:98-105 | an error exactly when there is no provider, otherwise the provider's value |
| `Auth.DemoUser` | src/context/auth-context.tsx:13-25 | the demo user has the demo id, the 'user' role and is active, and each timestamp is its own clock reading |
| `Auth.ProtectionRedirect` | src/context/auth-context.tsx:299-308 | redirects, to the given route ('/login' by default), exactly when not loading and not authenticated |
| `Auth.AuthProvider.constructor` | src/context/auth-context.tsx:51-65 | no user, not authenticated, loading, not in demo mode |
| `Auth.AuthProvider.SetState` | src/context/auth-context.tsx:64 | the three state parts take the given values |
| `Auth.AuthProvider.Mount` | src/context/auth-context.tsx:69-88 | a stored flag of exactly 'true' gives demo mode with the demo user, authenticated, not loading and no request; otherwise demo mode stays off, `/auth/me` is requested, and an answer reporting success with data signs that user in while any other answer or a thrown error signs out; loading always ends |
| `Auth.AuthProvider.RefreshUser` | src/context/auth-context.tsx:93-131 | demo mode signs in the demo user without a request; otherwise success with data signs that user in, and an unsuccessful answer or a thrown error signs out; loading always ends |
| `Auth.AuthProvider.Login` | src/context/auth-context.tsx:136-172 | demo mode signs in the demo user and returns true; otherwise true exactly on success with data, signing that user in, and false with user and isAuthenticated unchanged; loading always ends |
| `Auth.AuthProvider.Register` | src/context/auth-context.tsx:177-211 | as login, except that demo mode keeps the demo id with the caller's email and name |
| `Auth.AuthProvider.SignInWith` | src/context/auth-context.tsx:160-171 | `result?.success && result.data` decides between signing in that user and only ending the loading |
| `Auth.AuthProvider.Logout` | src/context/auth-context.tsx:216-240 | always ends signed out, not loading, pushing '/login'; demo mode also clears the flag and makes no request; a failing request is rethrown after the reset |
| `Auth.AuthProvider.EnableDemoMode` | src/context/auth-context.tsx:245-259 | demo mode, the demo user, authenticated, not loading, the flag stored as 'true', '/dashboard' pushed |
| `Auth.AuthProvider.DisableDemoMode` | src/context/auth-context.tsx:264-267 | demo mode and the stored flag are cleared; user state is unchanged |
| `ErrorHandler.ParseApiError` | src/utils/error-handler.ts:16-46 | an ApiError keeps message and status, is an auth error iff 401/403 and a validation error iff 400/422, and carries `data.errors` only for a validation error with object data; a TypeError mentioning "fetch" is a network error with the fixed message; other Errors keep their message; anything else gets the generic message |
| `ErrorHandler.ClassesDisjoint` | src/utils/error-handler.ts:19-20 | no error is both an auth and a validation error, and a network error is neither |
| `ErrorHandler.LogError` | src/utils/error-handler.ts:51-67 | nothing is logged exactly in development for auth and validation errors; otherwise the parsed details are logged |
| `ErrorHandler.HandleApiError` | src/utils/error-handler.ts:72-103 | a resolved promise gives its value with no effect; a rejection is logged, reported to onError with the parsed details, then rethrown unchanged if rethrow is set (default false) or turned into the fallback value |
| `Security.ReplaceAll` | src/utils/security.ts:15 | a global one-character replacement leaves a string without that character unchanged and never shortens it |
| `Security.ReplaceAllConcat` | src/utils/security.ts:15-19 | replacement distributes over concatenation |
| `Security.EscapeChar` | src/utils/security.ts:15-19 | each of the five markup characters becomes an entity `&...;`; other characters stay |
| `Security.Escape` | src/utils/security.ts:13-20 | the per-character escaper: no `<`, `>`, `"` or `'` in its output, never shorter, the identity on text without markup |
| `Security.SanitizeHtml` | src/utils/security.ts:13-20 | the replacement chain equals the per-character escaper, so none of `<`, `>`, `"`, `'` survives, it never shortens, and it is the identity without markup |
| `Security.SanitizeIsEscape` | src/utils/security.ts:14-19 | replacing '&' first means no produced entity is escaped again: the chain is the per-character map |
| `Security.ChainConcat` | src/utils/security.ts:14-19 | the chain distributes over concatenation |
| `Security.ChainChar` | src/utils/security.ts:14-19 | on one character the chain gives that character's entity |
| `Security.UnescapeSanitize` | src/utils/security.ts:13-20 | decoding the five entities restores the input: escaping loses nothing |
| `Security.UnescapeEntity` | src/utils/security.ts:15-19 | an escaped character followed by anything decodes to the character, then the rest |
| `Security.ToHexString` | src/utils/security.ts:33 | `toString(16)` gives lower-case hex digits, one digit exactly below 16, and no leading zero except for 0 itself |
| `Security.PadStart` | src/utils/security.ts:33 | `padStart` reaches the target length with the fill in front and the string at the end |
| `Security.PaddedHexByte` | src/utils/security.ts:33 | a padded hex byte is exactly its two digits, high nibble first |
| `Security.HexEncode` | src/utils/security.ts:32-34 | two characters per byte |
| `Security.HexEncodeAt` | src/utils/security.ts:32-34 | byte i is rendered at positions 2i and 2i+1 |
| `Security.HexRoundTrip` | src/utils/security.ts:32-34 | decoding the digit pairs gives the bytes back |
| `Security.GenerateNonce` | src/utils/security.ts:25-35 | 32 lowercase hex digits that decode to the 16 random bytes, all '0' without a random source |
| `Security.IsRelativePath` | src/utils/security.ts:63 | a url is a relative path exactly when its first character is '/' and its second, if any, is not |
| `Security.ValidateRedirect` | src/utils/security.ts:54-80 | '/' for a missing or empty url; a single-slash path is kept iff it has no '..'; any other url is kept iff same-origin; the answer is always the input or '/' |
| `Security.CollapseWhitespace` | src/utils/security.ts:99 | `replace(/\s+/g, ' ')` keeps every character that is not whitespace, in order; it leaves no two whitespace characters in a row and no whitespace but the space, never lengthens, and changes no text without whitespace |
| `Security.CollapseRun` | src/utils/security.ts:99 | the scan never lengthens, produces no leading whitespace when started inside a run, and changes no text without whitespace |
| `Security.CollapseKeepsText` | src/utils/security.ts:99 | the scan keeps exactly the characters that are not whitespace, in order, whatever state it starts in |
| `Security.RunIsOneSpace` | src/utils/security.ts:99 | a non-empty whitespace run gives exactly one space outside a run and nothing inside one |
| `Security.CollapseIsCollapsed` | src/utils/security.ts:99 | after collapsing, the only whitespace is single spaces |
| `Security.CollapseConcat` | src/utils/security.ts:99 | collapsing works piece by piece, the second piece read in the state the first leaves |
| `Security.CollapseFixed` | src/utils/security.ts:99 | a normalized piece passes through collapsing unchanged |
| `Security.TrimCollapsed` | src/utils/security.ts:99-100 | trimming a collapsed string leaves no leading or trailing whitespace |
| `Security.CspDirectives` | src/utils/security.ts:87-97 | eleven directives, each ending with ';' |
| `Security.IndentedLines` | src/utils/security.ts:86-98 | each directive sits on its own line after a newline and indentation; empty exactly when there are no directives |
| `Security.CspTemplate` | src/utils/security.ts:86-98 | the template begins with a newline and indentation and ends with a newline and the two spaces before the backtick |
| `Security.GenerateCsp` | src/utils/security.ts:85-101 | the header has no leading or trailing whitespace, no two adjacent whitespace characters and no whitespace but the space |
| `Security.CspNamesNonce` | src/utils/security.ts:88-89 | for a nonce without whitespace, the header holds the script-src and style-src directives naming 'nonce-<nonce>' |
| `Security.CollapseAround` | src/utils/security.ts:99 | a normalized piece between two others passes through collapsing unchanged, and the pieces around it are collapsed on their own |
| `Security.TrimKeepsNormalized` | src/utils/security.ts:100 | trimming keeps a normalized piece wherever it sits |
| `Security.LineSurvives` | src/utils/security.ts:86-100 | every normalized line of the template appears unchanged in the header |
| `Strings.TrimStart` | src/hooks/useTodos.ts:13 | the leading whitespace is dropped: the result is a suffix, what was dropped is whitespace, and it starts with non-whitespace |
| `Strings.TrimEnd` | src/hooks/useTodos.ts:13 | the trailing whitespace is dropped: the result is a prefix, what was dropped is whitespace, and it ends with non-whitespace |
| `Strings.Trim` | src/hooks/useTodos.ts:13 | `trim` gives the piece of the text that remains after removing whitespace at either end (`Surrounds`), with no whitespace at either end of its own, and the empty string exactly for all-whitespace text |
| `Strings.SurroundsSplit` | src/hooks/useTodos.ts:13 | what `trim` removes is an all-whitespace prefix and an all-whitespace suffix: the text is prefix + result + suffix |
| `Strings.TrimIdempotent` | src/hooks/useTodos.ts:19 | trimmed text has nothing left to trim |
| `Strings.DecimalStringInjective` | src/hooks/useTodos.ts:18 | ids made from distinct timestamps differ |
| `Theme.ValidatedTheme` | src/providers/theme-provider.tsx:76-84 | a valid theme is forwarded unchanged and any other value becomes 'system'; the result is always one of the three |
| `Theme.ThemeStore.SetTheme` | src/providers/theme-provider.tsx:76-84 | the store holds the validated theme |
| `Theme.CurrentResolvedTheme` | src/providers/theme-provider.tsx:73 | the library's resolved theme, or 'light' when absent or empty |
| `Theme.ContextValue` | src/providers/theme-provider.tsx:87-95 | isSystemTheme iff the theme is 'system', isDarkMode iff the resolved theme is 'dark', themes is [light, dark, system] |
| `Theme.SetThemeSystemFlag` | src/providers/theme-provider.tsx:76-92 | after setTheme, isSystemTheme holds exactly when 'system' or an invalid theme was asked for |
| `Theme.SchemeOf` | src/providers/theme-provider.tsx:36 | the detected scheme is 'dark' exactly when the media query matches, otherwise 'light' |
| `Theme.ThemeProvider.constructor` | src/providers/theme-provider.tsx:27-28 | before mounting, the provider is not mounted and knows no system scheme |
| `Theme.ThemeProvider.RendersChildren` | src/providers/theme-provider.tsx:51-53 | the children are rendered exactly once the provider has mounted |
| `Theme.ThemeProvider.Mount` | src/providers/theme-provider.tsx:31-36 | on mount the provider is mounted and takes the detected scheme |
| `Theme.ThemeProvider.OnChange` | src/providers/theme-provider.tsx:39-41 | each change event sets the detected scheme again |
| `Theme.UseTheme` | src/providers/theme-provider.tsx:103-111 | an error exactly when there is no provider, otherwise its value |
| `Throttle.Runs` | src/utils/performance.ts:20-31 | the calls that run fn: each is a call, the first is at least ms after lastCall, and consecutive runs are at least ms apart |
| `Throttle.RunsAppend` | src/utils/performance.ts:24-29 | one more call runs fn exactly when it comes at least ms after the last run |
| `Throttle.Throttled.constructor` | src/utils/performance.ts:20-21 | lastCall starts at 0, the interval defaults to 100 ms |
| `Throttle.Throttled.Call` | src/utils/performance.ts:23-30 | fn runs iff now - lastCall >= ms; a run sets lastCall to now, a suppressed call changes nothing; runs stay one interval apart |

## Left out

- `TodoApi.TodoStore.Get`: the 500 answer of the `catch` blocks of GET, POST and DELETE is not reachable in the model, because URL parsing and the response serialization that could throw there are framework code. PUT does reach its 500 answer: on a `null` body, reading `body.id` throws a `TypeError` (`TodoApi.TodoStore.Put`).
- Response serialization, `NextRequest`/`NextResponse` and the exact nested shape of zod's `error.format()`: validation issues are a list of (field, kind) pairs.
- zod counts string length in UTF-16 code units; the model does so too, but does not model lone surrogates in a `string`.
- `TodoContext.TodoProvider.Mount`: stored text that parses to something other than a todo list is not modelled, and neither are storage write failures (logged and ignored in the code). The transient write of the empty list between the two mount effects is not modelled; the model gives the state after both effects have settled.
- `Auth`: the asynchronous transitions are modelled from start to end, so interleavings of two pending requests, and the stale `isDemoMode` that the mount closure captures, are not modelled. The `useAuth` guard and Clerk are not part of this model.
- `Security.CollapseRun`: its own contract gives bounds only; that the scan keeps the text and turns each run into one space is stated about it in `Security.CollapseKeepsText` and `Security.RunIsOneSpace`, because those facts in its contract make the proofs that unfold it too costly.
- `Security.GenerateCsp`: the header is proved normalized and to contain the nonce directives; its exact text is not restated as a constant.
- `isSameOrigin` (which uses the browser's `URL` and `window.location`), `window.crypto`, `window.matchMedia`, `Date.now()`, console logging and the `onError` callback are inputs or outputs of the model rather than modelled code.
- The theming library's own computation of `resolvedTheme` and `systemTheme` is not modelled; they are inputs of `Theme.ContextValue`.
- `throttle` forwards `this` and its arguments to `fn`; the model only records whether `fn` runs. Clock values are integers, so the floating-point `ms` values JavaScript would accept (fractions, `NaN`) are not modelled.
- `debounce`, `useDebouncedValue` and the rest of `src/utils/performance.ts`, the API client, page components and configuration are not part of this model.
