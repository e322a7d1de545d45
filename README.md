# Todo client core, modelled in Dafny

This project models the non-visual core of a React Native todo client.
The client signs users in and keeps each user's todos together with an optional photo and position. The model covers:

- **Local authentication** (`Auth`, from `constants/auth.ts`). This covers the email check, the fixed list of accounts, and the storage slot that remembers who is signed in.
- **The per-user todo hook** (`Todos`, from `hooks/useTodos.ts`). An in-memory list with a loading flag is mirrored to device storage. The storage key is derived from the user's normalised email. Create, delete and toggle change the list and write it back. The active and completed views are filters over the list.
- **The HTTP gateways** (`TodoService`, `AuthService`, `ImageService`, over the shared outcome types in `Http`). Each gateway function is a function of how the request ended: a response body, an HTTP error status, no response, or a non-axios exception. It returns what the JavaScript promise settles to (`Settled`: resolves with a value, or rejects with a message).
- **The error helpers** (`ErrorHandler`, from `utils/error-handler.ts`). These are the status messages, the conversion of a caught value to an `ApiError`, and the local JWT expiry check.
- **The submit handlers of the screens** (`LoginScreen`, `RegisterScreen`, `TodoForm`). Each screen's React state is a class with one field per `useState` of the form. The login screen's `isCheckingSession` and `isLoadingTodos` belong to the session restore, which is left out. An awaiting handler is split into the part before the `await` (`Begin…`) and the part after it (`Finish…`). How the awaited call settles is a parameter.
- **The JavaScript built-ins the code relies on** (`Strings`). These are `trim`, `toLowerCase`, `split`/`join`, the regular-expression classes `\s` and `\w`, and `${n}` for integers.

Storage, network and platform calls are not performed by the model. Their results are parameters: a `StorageOp` (succeeds or fails), an `Outcome`, a `LocationOutcome`, or a `Settled` value.

Consequences of the code worth stating:

- The todo list is kept in device storage under `@MyApp:Todos:<email trimmed and lower-cased, or anon>` (hooks/useTodos.ts). Two sessions with the same email therefore share one list, and the model proves exactly that (`Todos.StorageKeyInjective`).
- A failed load leaves the current list in place (`Todos.TodoStore.LoadTodos`).
- The remembered user (constants/auth.ts) is `{ email }`, and the email is normalised when it is read back.
- The hook's state is the list, a loading flag and the liveness flag. Storage failures are logged and swallowed.

## Model

| member | source | states |
|---|---|---|
| Strings.TrimUnique | constants/auth.ts:28 | `trim` of whitespace, then a text with no whitespace at its ends, then whitespace, is that text. |
| Strings.Trim | constants/auth.ts:28 | `trim` never lengthens its input and leaves no whitespace at either end. `TrimCuts` and `TrimUnique` pin it down exactly. |
| Strings.TrimCuts | constants/auth.ts:28 | `trim` keeps a contiguous part of its input and cuts only whitespace on either side. Together with `TrimUnique` this pins `trim` down exactly. |
| Strings.TrimStartCuts | constants/auth.ts:28 | The leading-whitespace cut keeps a suffix and removes only whitespace. |
| Strings.TrimEndCuts | constants/auth.ts:28 | The trailing-whitespace cut keeps a prefix and removes only whitespace. |
| Strings.TrimIdempotent | constants/auth.ts:28 | Trimming twice is trimming once. |
| Strings.TrimIgnoresPadding | constants/auth.ts:28 | Whitespace added at either end never changes the trimmed text. |
| Strings.ToLower | constants/auth.ts:28 | Lower-casing keeps the length and maps each character on its own, ASCII letters only. |
| Strings.ToLowerTrim | constants/auth.ts:28 | Lower-casing and trimming commute. |
| Strings.TrimLower | constants/auth.ts:28 | `email.trim().toLowerCase()`. Its contract is carried by `TrimLowerIsNormal`, `NormalIsFixed` and `TrimLowerIdempotent`. |
| Strings.TrimLowerIsNormal | constants/auth.ts:28 | The normalised email (trimmed, then lower-cased) has no whitespace at its ends and no capital letters. |
| Strings.NormalIsFixed | constants/auth.ts:28 | Normalising a text that is already normal leaves it unchanged. |
| Strings.TrimLowerIdempotent | constants/auth.ts:28 | Normalising twice is normalising once. |
| Strings.Split | utils/error-handler.ts:74 | `split` on one character gives one more piece than there are separators, and no piece contains the separator. |
| Strings.JoinOfSplit | utils/error-handler.ts:74 | Joining the pieces of a split gives the input back. |
| Strings.SplitOfJoin | utils/error-handler.ts:74 | Splitting undoes a join of separator-free pieces. |
| Strings.LastPiece | services/image-services.ts:27 | `split(sep).pop()` is the longest separator-free suffix. It is either the whole text or is preceded by a separator. |
| Strings.IntToStringInjective | utils/error-handler.ts:40 | Different integers render as different decimal texts. |
| Auth.IsValidEmailIsPattern | constants/auth.ts:21-22 | The computed email check holds exactly when `^[^\s@]+@[^\s@]+\.[^\s@]+$` matches the trimmed address (both directions). |
| Auth.IsValidEmail | constants/auth.ts:21-22 | `isValidEmail`. Its contract is carried by `IsValidEmailIsPattern` (the regular expression, both directions), `IsValidEmailIgnoresPadding` and `ValidEmailShape`. |
| Auth.IsValidEmailIgnoresPadding | constants/auth.ts:21-22 | Surrounding whitespace never changes the verdict. |
| Auth.ValidEmailShape | constants/auth.ts:21-22 | A valid address, once trimmed, has exactly one '@' and no whitespace. |
| Auth.FindUser | constants/auth.ts:30-33 | `find` returns an account exactly when some account matches. The account returned is in the list and matches. |
| Auth.Authenticates | constants/auth.ts:28-33 | Whether `authenticate` finds an account. Its contract is carried by `FindUser`, `AuthenticateNormalisesOnlyTheEmail` and `PasswordIsExact`. |
| Auth.AuthenticateNormalisesOnlyTheEmail | constants/auth.ts:28-33 | Padding or lower-casing the email does not change whether sign-in succeeds. |
| Auth.PasswordIsExact | constants/auth.ts:30-33 | The password is compared as typed: since no password in `VALID_USERS` (lines 3-6) has outer whitespace, for every email a password with whitespace at either end never signs in. |
| Auth.PasswordsAreTrimmed | constants/auth.ts:3-6 | No account's password has whitespace at either end. |
| Auth.CurrentUserFrom | constants/auth.ts:53-73 | Covers every case. A failed read, a missing slot or an empty stored text gives no user (lines 56, 69-72). A JSON value with a string `email` gives that email normalised (60-62). Another JSON value gives no user (68). Non-empty text that is not JSON gives that text normalised (64-65). A user read back always has a normalised email. |
| Auth.CurrentUserRoundTrip | constants/auth.ts:40-62 | What `authenticate` stores is read back unchanged. |
| Auth.CurrentUserStore.constructor | constants/auth.ts:15 | The storage slot `@MyApp:CurrentUser` starts with the given contents. |
| Auth.CurrentUserStore.Authenticate | constants/auth.ts:25-49 | No match: the slot is removed and the result is `false`, or the call rejects when removal fails. A match: the normalised email is stored and the result is `true`, even when the write fails. |
| Auth.CurrentUserStore.GetCurrentUser | constants/auth.ts:53-73 | Returns what `CurrentUserFrom` gives for the current slot, and does not change the slot. |
| Auth.CurrentUserStore.ClearCurrentUser | constants/auth.ts:78-84 | The slot is emptied, and a failed removal is swallowed. |
| Todos.Owner | hooks/useTodos.ts:16-17 | The owner part of the key is never empty. |
| Todos.StorageKeyInjective | hooks/useTodos.ts:16-17 | Two emails share a storage key exactly when they have the same owner. |
| Todos.StorageKeyNormalises | hooks/useTodos.ts:16-17 | Case and surrounding whitespace do not change the key. |
| Todos.BlankIsAnonymous | hooks/useTodos.ts:16-17 | A blank email uses the same key as the email `anon`. |
| Todos.StorageKey | hooks/useTodos.ts:15-17 | The key of a user's list. Its contract is carried by `StorageKeyInjective`, `StorageKeyNormalises`, `BlankIsAnonymous` and `WritesAreIsolated`. |
| Todos.WithoutId | hooks/useTodos.ts:100 | The filtered list holds exactly the entries whose id differs, and it is never longer. |
| Todos.WithoutIdAppend | hooks/useTodos.ts:100 | Deleting distributes over concatenation, so the order is kept. |
| Todos.WithoutAbsentId | hooks/useTodos.ts:100 | Deleting an id no entry has changes nothing. |
| Todos.WithoutIdIdempotent | hooks/useTodos.ts:100 | Deleting twice is deleting once. |
| Todos.Toggled | hooks/useTodos.ts:112-114 | Position by position, entries with the id are flipped and the others are kept. |
| Todos.ToggledKeepsIds | hooks/useTodos.ts:112-114 | Toggling changes only the completed flag. |
| Todos.ToggleTwice | hooks/useTodos.ts:112-114 | Toggling the same id twice gives the list back. |
| Todos.ToggleAbsent | hooks/useTodos.ts:112-114 | Toggling an absent id changes nothing. |
| Todos.Active | hooks/useTodos.ts:123-126 | The active view holds exactly the entries not completed. |
| Todos.Completed | hooks/useTodos.ts:128-131 | The completed view holds exactly the completed entries. |
| Todos.PartitionSizes | hooks/useTodos.ts:123-131 | The two views together are as long as the list. |
| Todos.ViewsAppend | hooks/useTodos.ts:123-131 | Both views keep the list's order. |
| Todos.WritesAreIsolated | hooks/useTodos.ts:59-68 | A write under one owner's key is not seen under another owner's key. |
| Todos.TodoStore.constructor | hooks/useTodos.ts:20-22 | The first render has an empty list, is loading, and is mounted. |
| Todos.TodoStore.Unmount | hooks/useTodos.ts:24-28 | Clears the liveness flag and nothing else. |
| Todos.TodoStore.LoadTodos | hooks/useTodos.ts:32-46 | When mounted, a successful read replaces the list with what is stored under the key, and loading ends. A failed read keeps the list. Once unmounted, nothing changes. |
| Todos.TodoStore.Reload | hooks/useTodos.ts:48-57 | When mounted, loading is raised and the list is then loaded, ending with loading false. Once unmounted, both state updates are ignored and nothing changes. |
| Todos.TodoStore.PersistTodos | hooks/useTodos.ts:59-68 | Writes the list under this user's key only. A failed write is swallowed. |
| Todos.TodoStore.CreateTodo | hooks/useTodos.ts:71-94 | Appends one uncompleted todo owned by the current email and persists the new list. |
| Todos.TodoStore.DeleteTodo | hooks/useTodos.ts:97-106 | The list becomes `WithoutId` of the old list, and it is persisted. |
| Todos.TodoStore.ToggleTodo | hooks/useTodos.ts:109-120 | The list becomes `Toggled` of the old list, and it is persisted. |
| Todos.TodoStore.ActiveTodos | hooks/useTodos.ts:123-126 | `activeTodos` holds exactly the uncompleted entries of the state. Together with `completedTodos` it accounts for every entry. |
| Todos.TodoStore.CompletedTodos | hooks/useTodos.ts:128-131 | `completedTodos` holds exactly the completed entries of the state. |
| Todos.ReappearsForSameUser | hooks/useTodos.ts:30-57 | A created todo is loaded again by a new hook for the same email, written in another case and padded. |
| Todos.HiddenFromOtherUser | hooks/useTodos.ts:30-57 | A hook for another owner loads nothing written by the first. |
| TodoService.GetTodos | services/todo-services.ts:46-75 | A resolved listing always has an array. It is the body as sent, or the empty listing when the body is missing or not an array, or on a 404. A 401 is unauthorised, any other status names itself, and no response is "cannot connect". |
| TodoService.GetTodosKeepsBody | services/todo-services.ts:56-60 | A well-formed listing is returned unchanged. |
| TodoService.ServerErrorsNameTheStatus | services/todo-services.ts:62-70 | For statuses other than 401 and 404, different statuses give different errors. |
| TodoService.CreateTodo | services/todo-services.ts:77-93 | Resolves exactly when the response carries a record, and with that record. It rejects with "unauthorised" on a 401 and with the operation's own message otherwise. |
| TodoService.ToggleTodo | services/todo-services.ts:95-110 | As `CreateTodo`, with the toggle message. |
| TodoService.UpdateTodo | services/todo-services.ts:125-141 | As `CreateTodo`, with the update message. |
| TodoService.DeleteTodo | services/todo-services.ts:112-123 | Resolves exactly when a response arrives, whatever its body. A 401 is unauthorised, and all else gets the delete message. |
| TodoService.InvalidResponseIsRewritten | services/todo-services.ts:80-91 | The invalid-response error thrown inside `try` never reaches the caller. It is replaced by the operation's generic message. |
| TodoService.UnauthorizedEverywhere | services/todo-services.ts:62-65 | All five operations report a 401 with the same message. |
| TodoService.MutationsIgnoreOtherStatuses | services/todo-services.ts:84-91 | Apart from a 401, every failure of a mutation is reported alike. |
| AuthService.Login | services/auth-services.ts:24-36 | The body is returned unchanged. A 401 is invalid credentials, and every other failure is a network or server error. |
| AuthService.Register | services/auth-services.ts:38-50 | As `Login`, with 409 meaning the user exists. |
| AuthService.StatusesAreNotShared | services/auth-services.ts:29-48 | Each gateway singles out only its own status. |
| ImageService.FileName | services/image-services.ts:27 | The name is the text after the last '/', or `image.jpg` when that is empty. It never contains '/'. |
| ImageService.WordRun | services/image-services.ts:28 | The longest suffix of `\w` characters. |
| ImageService.MimeType | services/image-services.ts:28-29 | The MIME type for a file name. Its contract is carried by `MimeTypeOfMatch` and `MimeTypeWithoutMatch`, which together cover every name. |
| ImageService.MimeTypeOfMatch | services/image-services.ts:28-29 | When `/\.(\w+)$/` matches, the type is `image/` followed by the capture, with its case kept. |
| ImageService.MimeTypeWithoutMatch | services/image-services.ts:28-29 | When the expression does not match, the type is `image/jpeg`. |
| ImageService.MimeTypeExamples | services/image-services.ts:27-29 | Only the last extension counts, the default name gives `image/jpg`, and a trailing dot gives the default. |
| ImageService.DirectoryUriUploadsAsDefault | services/image-services.ts:27-38 | A URI ending in '/' uploads as `image.jpg`, of type `image/jpg`. |
| ImageService.UploadImage | services/image-services.ts:22-73 | Resolves exactly when the response has a non-empty URL, and with that URL. A missing URL is rewritten as a non-axios error. A 401, a non-zero status, and a missing or zero status (a network error) each get their own message. |
| ErrorHandler.GetErrorMessage | utils/error-handler.ts:17-41 | The message ends with the status's own text. It is that text alone exactly when the context is absent or empty. Otherwise it is the context, then `: `, then that text. |
| ErrorHandler.StatusMessage | utils/error-handler.ts:20-41 | The `switch` of `getErrorMessage`. Its contract is carried by `ListedMessages` and `UnlistedMessages`. |
| ErrorHandler.ContextIsRecoverable | utils/error-handler.ts:18 | Different contexts give different messages. |
| ErrorHandler.ListedMessages | utils/error-handler.ts:20-38 | The listed statuses have pairwise different messages, except 502, 503 and 504, which share one. |
| ErrorHandler.UnlistedMessages | utils/error-handler.ts:39-40 | Unlisted statuses are told apart by their number and never get a listed message. |
| ErrorHandler.HandleAxiosError | utils/error-handler.ts:47-66 | An axios error gets the numeric code `error.response?.status \|\| 0`, the message for that status and context, and `ServerDetails` as details. Another `Error` keeps its message as `UNKNOWN` with no details. Anything else is "Error desconocido". |
| ErrorHandler.NoResponseIsStatusZero | utils/error-handler.ts:49 | An axios error without a response is status 0, reported as an unknown error. |
| ErrorHandler.DetailsPreferTheServer | utils/error-handler.ts:53-56 | The details are the first non-empty of the server's `message`, the server's `error` and the error's own message. |
| ErrorHandler.DetailsWithoutData | utils/error-handler.ts:53-56 | Without a response, or with a response that has no body, the details are the axios error's own message. |
| ErrorHandler.ServerDetails | utils/error-handler.ts:53-56 | The details of an axios error. Its contract is carried by `DetailsPreferTheServer` and `DetailsWithoutData`. |
| ErrorHandler.ContextOnlyForAxiosErrors | utils/error-handler.ts:61-65 | The context is ignored for errors that are not axios errors. |
| ErrorHandler.TokenExpiryCases | utils/error-handler.ts:71-87 | Not three parts, or an undecodable payload: expired. No or zero `exp`: not expired. Otherwise expired from `exp * 1000` ms on. |
| ErrorHandler.ExpiryIsPermanent | utils/error-handler.ts:83 | Once expired, a token stays expired as time passes. |
| ErrorHandler.ExpiryBoundary | utils/error-handler.ts:83 | A token expires at exactly `exp * 1000` ms. |
| ErrorHandler.IsTokenExpired | utils/error-handler.ts:71-87 | `isTokenExpired`. Its contract is carried by `TokenExpiryCases`, `ExpiryIsPermanent` and `ExpiryBoundary`. |
| LoginScreen.LoginValidationOrder | app/index.tsx:82-93 | The email is checked first. A form passes exactly when the email is valid and a password is typed. |
| LoginScreen.LoginValidation | app/index.tsx:83-93 | The checks of `handleLogin`. Its contract is carried by `LoginValidationOrder`. |
| LoginScreen.PassingLoginIsFilled | app/index.tsx:85-93 | A passing form has both fields filled, so its button (line 159) is enabled whenever no login is running. |
| LoginScreen.BlankPasswordIsSentEmpty | app/index.tsx:90-99 | A password of spaces passes the check and is sent empty. |
| LoginScreen.SettledError | app/index.tsx:101-110 | No error exactly after a successful login. Otherwise the message is never empty. |
| LoginScreen.LoginForm.constructor | app/index.tsx:19-22 | The form starts empty, with no error, not submitting and not navigated. |
| LoginScreen.LoginForm.SubmitDisabled | app/index.tsx:159 | The `disabled` condition of the button. `PassingLoginIsFilled` states that it does not hold for a passing form that is not submitting. |
| LoginScreen.LoginForm.BeginLogin | app/index.tsx:82-99 | The error is cleared. The first failing check sets its message and nothing is sent. A passing form raises `isSubmitting` and sends the trimmed credentials. |
| LoginScreen.LoginForm.FinishLogin | app/index.tsx:97-113 | `true` navigates, `false` and rejections set their messages, and `isSubmitting` ends false. |
| LoginScreen.LoginForm.HandleLogin | app/index.tsx:82-114 | The whole handler, composed of the two parts. |
| RegisterScreen.RegisterValidationOrder | app/register.tsx:28-49 | The checks run in order. A form passes exactly when the email is valid, the password has at least 6 characters, and it is confirmed. |
| RegisterScreen.RegisterValidation | app/register.tsx:29-49 | The checks of `handleRegister`. Its contract is carried by `RegisterValidationOrder`. |
| RegisterScreen.PassingFormIsFilled | app/register.tsx:31-49 | A passing form has all three fields filled, so its button (line 116) is enabled whenever no registration is running. |
| RegisterScreen.LengthCheckIsUntrimmed | app/register.tsx:41-54 | The length is checked before trimming, so a padded four-character password passes. |
| RegisterScreen.SettledError | app/register.tsx:56-65 | No error exactly after a successful registration. |
| RegisterScreen.RegisterForm.constructor | app/register.tsx:22-26 | The form starts empty, with no error, not submitting and not navigated. |
| RegisterScreen.RegisterForm.SubmitDisabled | app/register.tsx:116 | The `disabled` condition of the button. `PassingFormIsFilled` states that it does not hold for a passing form that is not submitting. |
| RegisterScreen.RegisterForm.BeginRegister | app/register.tsx:28-54 | As `BeginLogin`, with the four registration checks. |
| RegisterScreen.RegisterForm.FinishRegister | app/register.tsx:53-68 | `true` navigates, `false` and rejections set their messages, and `isSubmitting` ends false. |
| RegisterScreen.RegisterForm.HandleRegister | app/register.tsx:28-69 | The whole handler, composed of the two parts. |
| TodoForm.CreateReaction | components/TodoForm.tsx:87-105 | A blank title is refused first. A running creation or location request otherwise blocks. Otherwise the trimmed title and the location are sent. The photo is sent as given, except that an empty URI is sent as absent (`photoUri \|\| undefined`), so a task never carries an empty photo. |
| TodoForm.SubmittedTitleIsTrimmed | components/TodoForm.tsx:88-102 | The title sent is non-empty and has no whitespace at its ends. |
| TodoForm.ReactionIgnoresPadding | components/TodoForm.tsx:88-91 | Padding the title never changes the reaction. |
| TodoForm.DisabledExactlyWhenBusy | components/TodoForm.tsx:96 | With a title, a press is ignored as busy exactly when the create button (line 188) is disabled. |
| TodoForm.TodoFormState.constructor | components/TodoForm.tsx:34-38 | The form starts with no title, photo or location, and no request running. |
| TodoForm.TodoFormState.CreateDisabled | components/TodoForm.tsx:188 | The `disabled` condition of the create button. `DisabledExactlyWhenBusy` relates it to the handler. |
| TodoForm.TodoFormState.EditTitle | components/TodoForm.tsx:128 | Typing sets the title and nothing else. |
| TodoForm.TodoFormState.SetPhoto | components/TodoForm.tsx:136 | Sets or removes the photo and nothing else. |
| TodoForm.TodoFormState.BeginCreate | components/TodoForm.tsx:87-105 | Only a submission changes state, by raising `isCreating`. It returns the task `CreateReaction` describes. |
| TodoForm.TodoFormState.FinishCreate | components/TodoForm.tsx:107-118 | A success clears the title, photo and location. A failure keeps them. `isCreating` ends false. |
| TodoForm.TodoFormState.HandleCreateTodo | components/TodoForm.tsx:87-119 | The whole handler: a refused or blocked press changes nothing. |
| TodoForm.TodoFormState.BeginGetLocation | components/TodoForm.tsx:62 | Raises `isLoadingLocation`. |
| TodoForm.TodoFormState.FinishGetLocation | components/TodoForm.tsx:64-84 | Only a position changes the location. `isLoadingLocation` ends false on every path, including a denied permission. |
| TodoForm.TodoFormState.HandleGetLocation | components/TodoForm.tsx:61-85 | The whole handler. |
| TodoForm.RetrySendsSameTask | components/TodoForm.tsx:87-119 | After a failed creation the next press sends the same task. After a success, the form sends nothing. |

## Left out

- Networking, `FormData` and headers are left out. The request methods, paths and payloads, the base URLs, the `Authorization: Bearer` header, and the 5 MB and 30 s upload limits are transport settings the model has no use for. Each request is modelled only by how it ends (`Http.Outcome`).
- JSON is not modelled. `JSON.stringify`/`JSON.parse` of the todo list are taken as exact inverses, and storage holds lists. What `JSON.parse` makes of the current-user slot is given as a `StoredUser` classification (JSON object with a string `email`, some other JSON value, or text that is not JSON).
- `atob` and the parsing of the JWT payload are not modelled. `IsTokenExpired` receives the decoded payload, or `None` when decoding or parsing throws.
- Clocks and ids are parameters. `Date.now()` is passed to `IsTokenExpired`, and the id of a new todo is passed to `CreateTodo`.
- Numbers are modelled as `int` and `real`. Coordinates are `real`, not IEEE doubles. `exp * 1000` is exact integer arithmetic. JavaScript's coercion of a non-numeric `exp` is not modelled.
- `toLowerCase` maps only ASCII letters. Unicode case mapping is not modelled. Lengths count Dafny characters, not UTF-16 code units.
- `handlePickImage` (camera, permissions and the blob fetch) is left out. After a picture is taken, its effect on the form is `setPhotoUri` followed by `handleGetLocation`. These are modelled as `TodoFormState.SetPhoto` followed by `TodoFormState.HandleGetLocation`.
- Alerts, `console` logging and navigation are left out. Alerts and logging have no effect on state. Navigation is the `navigated` flag.
- The 350 ms delay of `authenticate` is not modelled.
- Concurrency is not modelled. Every handler runs to completion without interleaving. Two overlapping handlers and React's batching of state updates are out of scope. So is a `setState` call on an unmounted component, except for the hook's own liveness flag, which is modelled.
- The session context (`components/context/auth-context.tsx`), the session restore and the server fetch in `app/index.tsx` are not part of this model. The screens receive the settled result of `login`/`register` as a `Settled<bool>`.
- `String(error)` for a thrown value that is not an `Error` is not modelled. Every non-axios failure carries a message text.
- Auth.CurrentUserStore.GetCurrentUser: the `try` around `getItem` is modelled as the `read` parameter. A JSON text that parses to a non-object with an `email` property (which is impossible) is not distinguished.
- What a failed storage write leaves behind is unknown, so the model assumes a failed `setItem` or `removeItem` leaves the slot as it was.
