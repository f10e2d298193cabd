# GoBarber web client: route guard, form input and profile page

This project models the decision logic of the GoBarber booking web client
(a React front end over a remote HTTP API) and proves properties of it in
Dafny:

- **Route guard** (`AppRoute`, module `Routing`): given whether a route is
  private (default public) and whether a user is signed in, render the page
  or redirect to `/` (sign-in) or `/dashboard`, passing the requested
  location along as `state.from`.
- **Route table** (`Routes`, module `RouteTable`): the four declared routes
  `/` (exact), `/signup`, `/forgot-password` and `/dashboard` (private),
  looked up by exact path. Combined with the guard: every redirect lands on a
  declared route that then renders, so no request loops.
- **Form input** (`Input`, module `Input`): the `isFocused`/`isFilled`
  state changed by the focus and blur handlers, kept as a class with those
  two fields, plus the derived container properties (error flag, error
  marker title, test id) and the field's registration with the form.
- **Profile page** (module `Profile`): the validation schema of the profile
  form (kept as data and evaluated by test semantics of the schema library),
  the request body that includes the password fields only when a current
  password is given, and the effect traces of the submit and avatar
  handlers (`SetErrors`, `Put`, `Patch`, `UpdateUser`, `Navigate`,
  `AddToast`), with the page as a class that appends to its trace.

Collaborators are inputs: the signed-in user is a `Session` value, each HTTP
call's outcome is an `ApiResult` (`Resolved(user)` or `Rejected`), and
e-mail well-formedness is the function parameter `isEmail`.

The files: `common.dfy` (`Wrappers.Option`, `Auth.User`), `route.dfy`,
`routes.dfy`, `input.dfy`, `profile.dfy`.

## Model

| member | source | states |
|---|---|---|
| `Routing.IsPrivate` | src/routes/Route.tsx:12 | a route whose `isPrivate` is omitted is public; a given value is used as is |
| `Routing.Guard` | src/routes/Route.tsx:22-28 | the page renders iff route privacy equals "a user is signed in", and then it is the route's component; private and signed out redirects to `/`; public and signed in redirects to `/dashboard`; a redirect carries the requested location |
| `Routing.RedirectTargets` | src/routes/Route.tsx:25-29 | every redirect goes to `/` or `/dashboard` and carries the requested location as `from` |
| `Routing.GuardIgnoresUserFields` | src/routes/Route.tsx:16-22 | two sessions that agree on whether someone is signed in get the same decision, whatever the user's fields |
| `RouteTable.Lookup` | src/routes/index.tsx:12-18 | the result is the first declaration with the requested path, and there is none exactly when no declaration has that path |
| `RouteTable.Resolve` | src/routes/index.tsx:12-18 | nothing renders exactly when no declaration has the requested path; otherwise the decision is the guard's for the first declaration with that path |
| `RouteTable.DeclaredRoutes` | src/routes/index.tsx:13-17 | four routes in order `/`, `/signup`, `/forgot-password`, `/dashboard`; only `/` is exact; only `/dashboard` is private |
| `RouteTable.RoutesRedirectsLand` | src/routes/index.tsx:13-17 | `/` resolves to the public first route and `/dashboard` to the private fourth |
| `RouteTable.NoRedirectLoop` | src/routes/Route.tsx:22-28 | in any table whose `/` is public and `/dashboard` private, following one redirect with the same session reaches a route that renders |
| `RouteTable.AppHasNoRedirectLoop` | src/routes/index.tsx:13-17 | in the application's table, a redirect targets `/` or `/dashboard`, which is declared and renders for the same session |
| `RouteTable.UndeclaredPaths` | src/routes/index.tsx:12-18 | `/profile` and `/reset-password` have no declaration, so the table renders nothing for them and the guard does not govern them |
| `Input.Step` | src/components/Input/index.tsx:31-38 | focus sets focused and keeps filled; blur clears focused and sets filled iff the input's value is non-empty |
| `Input.Run` | src/components/Input/index.tsx:28-38 | after any events the field is focused exactly when the latest event was a focus (unchanged when there was none); focus events alone never change whether it is filled |
| `Input.FilledIsLastBlur` | src/components/Input/index.tsx:28-38 | from mount, after any events the field is filled exactly when the latest blur saw a non-empty value (never before any blur) |
| `Input.Register` | src/components/Input/index.tsx:40-46 | the field registers under its `fieldName` with path `value` |
| `Input.ContainerTestId` | src/components/Input/index.tsx:54 | the container test id is `input-` followed by the field name |
| `Input.TestIdsDistinct` | src/components/Input/index.tsx:54 | distinct field names give distinct container test ids |
| `Input.View` | src/components/Input/index.tsx:49-69 | the error flag holds iff the error string is non-empty; the error marker is shown exactly then, titled with that string; focus/filled flags and test id are passed through |
| `Input.InputField.constructor` | src/components/Input/index.tsx:28-46 | a new field is neither focused nor filled, and registers with the form under its `fieldName` with path `value` |
| `Input.InputField.HandleInputFocus` | src/components/Input/index.tsx:31-33 | focused afterwards, filled unchanged |
| `Input.InputField.HandleInputBlur` | src/components/Input/index.tsx:35-38 | not focused afterwards; filled iff the current value is non-empty |
| `Input.InputField.Render` | src/components/Input/index.tsx:49-69 | the rendered container flags an error iff the field's error is non-empty and then titles the marker with it, shows the field's current focused and filled state, and has test id `input-` followed by its name |
| `Profile.Utf16Length` | src/pages/Profile/index.tsx:46 | the length a `min` test measures is in UTF-16 code units: at least the number of characters, at most twice it, and zero only for the empty string |
| `Profile.Utf16LengthBasicPlane` | src/pages/Profile/index.tsx:46 | for text without characters beyond U+FFFF that length is the number of characters |
| `Profile.Passes` | src/pages/Profile/index.tsx:39-52 | `required` rejects exactly the empty string; `email` accepts the empty string and otherwise exactly well-formed addresses; `min(n)` accepts any string of at least n characters, rejects any of fewer than n/2, and accepts the empty string only for n = 0; `oneOf([ref])` accepts exactly the referenced field's value |
| `Profile.Failed` | src/pages/Profile/index.tsx:55 | all of a field's tests run (`abortEarly: false`); no message is reported exactly when every test passes |
| `Profile.FailedMessages` | src/pages/Profile/index.tsx:55 | the reported messages are exactly the messages of the failing tests, and the first one is that of the first failing test |
| `Profile.NameErrors` | src/pages/Profile/index.tsx:39 | the name entry reports "Nome obrigatório" iff the name is empty |
| `Profile.EmailErrors` | src/pages/Profile/index.tsx:40-42 | the e-mail entry reports the required message for an empty e-mail, the format message for an ill-formed one, nothing otherwise |
| `Profile.CurrentPasswordErrors` | src/pages/Profile/index.tsx:43 | the current password is never rejected |
| `Profile.PasswordErrors` | src/pages/Profile/index.tsx:44-48 | the new password is rejected iff a current password is given and it is shorter than 6 UTF-16 code units |
| `Profile.ConfirmationErrors` | src/pages/Profile/index.tsx:49-52 | the confirmation is rejected iff it differs from the new password |
| `Profile.Validate` | src/pages/Profile/index.tsx:38-55 | the form's error map: name reported iff empty; e-mail iff empty (required message) or ill formed (format message); current password never; new password iff a current password is given and it has fewer than 6 UTF-16 code units; confirmation iff it differs from the new password; each with its message |
| `Profile.OneFailurePerField` | src/pages/Profile/index.tsx:38-55 | no field of this schema fails more than one test, so a field-to-message error map loses no error |
| `Profile.ValidIff` | src/pages/Profile/index.tsx:55 | a submission validates iff name non-empty, e-mail non-empty and well formed, password of at least 6 UTF-16 code units when a current password is given, and confirmation equal to password |
| `Profile.FormData` | src/pages/Profile/index.tsx:65-71 | the body always has `name` and `email`; it has `current_password`, `password`, `password_confirmation` iff the current password is non-empty; nothing else; every value is the submitted one |
| `Profile.SubmitTrace` | src/pages/Profile/index.tsx:36 | every submit first clears the form errors |
| `Profile.SubmitTraceRequests` | src/pages/Profile/index.tsx:55-80 | a request goes out exactly when validation found no error, always with the built body to `/profile`; navigation happens exactly when that request resolves |
| `Profile.SubmitEffects` | src/pages/Profile/index.tsx:33-101 | a submit clears the errors first; it sends a request exactly when the submission validates, and then `PUT /profile` with the submission's body; it navigates exactly when it validates and the request resolves |
| `Profile.SubmitInvalid` | src/pages/Profile/index.tsx:84-90 | on a validation failure: errors cleared, field errors set, then nothing else (no request, user update, navigation or toast) |
| `Profile.SubmitSucceeds` | src/pages/Profile/index.tsx:73-82 | valid and the request resolves: clear errors, PUT `/profile` with the body, update the user from the response, navigate to `/dashboard`, exactly one success toast |
| `Profile.SubmitRequestFails` | src/pages/Profile/index.tsx:92-97 | valid but the request fails: exactly one error toast, no user update, no navigation |
| `Profile.SentBodiesAreValid` | src/pages/Profile/index.tsx:55-73 | any body that is sent has a name, a well-formed e-mail and, when it carries a new password, one of at least 6 UTF-16 code units equal to its confirmation |
| `Profile.AvatarEffects` | src/pages/Profile/index.tsx:103-118 | no effect exactly when no file is picked; otherwise the first effect is the PATCH of the first file and no other upload follows; the user is updated exactly when a file is picked and the upload resolves |
| `Profile.Toasts` | src/pages/Profile/index.tsx:78-97 | a trace shows no toast exactly when it has no `AddToast` effect, and never more toasts than effects |
| `Profile.AvatarWithoutFile` | src/pages/Profile/index.tsx:105 | with no file picked the avatar handler does nothing |
| `Profile.AvatarWithFile` | src/pages/Profile/index.tsx:105-114 | with a file: PATCH `/users/avatar` with the first file; if it resolves, update the user, then one success toast; if it is rejected, nothing more |
| `Profile.ProfilePage.constructor` | src/pages/Profile/index.tsx:26-31 | a freshly mounted page has made no call into its collaborators |
| `Profile.ProfilePage.HandleSubmit` | src/pages/Profile/index.tsx:33-101 | appends exactly the submit effects (the trace for the submission's validation errors, its body and the request's outcome) to the page's trace |
| `Profile.ProfilePage.HandleAvatarChange` | src/pages/Profile/index.tsx:103-118 | appends exactly the avatar effects to the page's trace |

## Left out

- The toast store and toast presenter (`src/hooks/toast`, `src/components/ToastContainer`) are not part of this model: their source is not among the modelled files, so a toast is only the effect `AddToast(toast)` with its type, title and description.
- The authentication hook (`src/hooks/auth`) is not part of this model: its persistence and sign-in request are replaced by the `Session` input of the guard and the `UpdateUser` effect.
- HTTP calls are inputs (`ApiResult`). A rejected avatar upload is not caught by the page, so its trace simply ends after the `Patch` effect; the unhandled rejection itself is not modelled.
- Exceptions thrown by `updateUser`, `history.push` or `addToast` are not modelled; in the code they would reach the submit handler's catch and produce the error toast.
- The schema library's internals: e-mail well-formedness is the parameter `isEmail`, and `getValidationErrors` is not part of this model; the model maps each failing field to its failing test's message (`OneFailurePerField` shows there is only one).
- Router mechanics: `Switch` is modelled as "first declaration whose path equals the requested pathname"; prefix matching, the `exact` flag's effect and route rendering are library behaviour. A redirect's next location has only the target pathname (empty search and hash).
- Presentation: styles and colours, icons, `containerStyle`, `defaultValue`, the avatar image and the JSX layout; the Input's `inputRef.current` is assumed mounted when blur fires.
- The sign-up page (static markup with no handler), the dashboard's calendar and the button's loading state have no decision logic here.
- `Profile.ProfilePage.HandleSubmit`: the handler is asynchronous (it awaits validation at src/pages/Profile/index.tsx:55 and the request at :73), so in the application a second submit or a pending avatar upload can interleave its effects with this one's; the model appends each call's effects as one uninterrupted block.
- `Profile.ProfilePage.HandleAvatarChange`: the upload's continuation runs later (the `.then` at src/pages/Profile/index.tsx:110-114), so its user update and toast can come after effects of other handlers; the model appends them right after the `Patch` effect.
