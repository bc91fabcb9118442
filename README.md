# AuthSystem session and permission model

A Dafny model of `AuthSystem`, the browser-side session and permission helper of a
shift-management web application (`js/auth.js`). The helper signs a user in against a
plaintext user list supplied by an external store, keeps a reduced session record in
per-tab storage, answers permission queries by asking the store, gates two pages by
fixed path lists, and computes the text it writes into user-information elements.

Layout:

- `wrappers.dfy` — `Option` (JavaScript `null` or a value) and `Result` (a value or a thrown error).
- `text.dfy` — ASCII lower-casing (`toLowerCase`), substring search (`includes`),
  `join` and its inverse for comma-free names.
- `credentials.dfy` — `UserRecord`, the reduced `Session`, the matching test and the
  first-match search that `login` runs with `find`.
- `pages.dfy` — the protected and admin page lists and the `some(... includes ...)` test.
- `display.dfy` — permission label, permission description and casilla text.
- `auth.dfy` — class `AuthSystem`: the `currentUser` field and the storage slot, the
  methods that change them (`LoadCurrentUser`, `SaveCurrentUser`, `Login`, `Logout`),
  the permission queries and the page gate; plus a client method exercising two sign-in cases.

The external store is taken as given: `db.getUsuarios()` is the `users` parameter of
`Login`, `db.verificarPermisos(id, level)` is a parameter `perm: (UserId, string) -> bool`,
and `db.obtenerCasillasDeUsuario(id)` is a parameter `casillasOf`. The storage key
`currentUser` is the field `stored` of type `Slot`: `Empty` (key missing or empty),
`Malformed` (text that does not parse) or `Holds(session)`. A plain optional session would
not do, because `loadCurrentUser` leaves the user untouched when the key is missing but
resets it to no user when parsing fails.

## Model

| member | source | states |
|---|---|---|
| `Text.Lower` | js/auth.js:33 | the lower-cased text has the input's length, folds each character, and contains no upper-case ASCII letter |
| `Text.LowerIdempotent` | js/auth.js:33 | lower-casing an already lower-cased e-mail changes nothing |
| `Text.Includes` | js/auth.js:111 | `includes` is true exactly when the page name occurs at some position of the path |
| `Text.IncludesSelf` | js/auth.js:111 | a path that is exactly a page name includes it |
| `Text.SplitJoin` | js/auth.js:213 | `Join`, the model of `join(', ')`: joining a non-empty list of comma-free names with ", " is undone by splitting at the commas |
| `Credentials.Matches` | js/auth.js:32-36 | the `find` test: a match needs the exact password and an unblocked user |
| `Credentials.MatchesLowerInput` | js/auth.js:33 | typing the e-mail already lower-cased makes no difference to the match |
| `Credentials.ToSession` | js/auth.js:42-47 | the session copies `id`, `nombre`, `correo` and `permisos` unchanged from the record |
| `Credentials.SessionDropsSecrets` | js/auth.js:42-47 | records differing only in password or blocked flag give the same session: neither is kept |
| `Credentials.FirstMatchIndex` | js/auth.js:32-36 | `find` selects nothing exactly when no record matches (e-mail equal under lower-casing, password exactly equal, not blocked); otherwise the selected record matches and every earlier record does not |
| `Credentials.FirstMatchIgnoresInputCase` | js/auth.js:32-33 | two typed e-mails with the same lower-cased form select the same record |
| `Credentials.BlockedNeverSelected` | js/auth.js:35 | the selected record is never a blocked user |
| `Pages.IncludesAny` | js/auth.js:111 | `some(page => path.includes(page))` is true exactly when the path includes some listed page |
| `Pages.IsProtected` | js/auth.js:100-103 | the first `some(... includes ...)` test: a path is protected exactly when it includes `/pages/admin.html` or `/pages/configuracion.html` |
| `Pages.RequiresAdmin` | js/auth.js:106-108 | the second test: a path needs admin exactly when it includes `/pages/configuracion.html`, and every such path is protected |
| `Display.PermissionLabel` | js/auth.js:188-196 | `desarrollador`, `coordinador` and `admin` are shown as `Desarrollador`, `Coordinador` and `Administrador` and each label comes only from its role; every other value is shown as `Usuario` |
| `Display.PermissionDescription` | js/auth.js:199-207 | `desarrollador` gets `Acceso completo al sistema`, exactly `coordinador` and `admin` get `Acceso administrativo`, every other value gets `Solo puede gestionar turnos` |
| `Display.DescriptionFollowsLabel` | js/auth.js:188-207 | equal labels give equal descriptions; the legacy role `admin` has its own label but shares the description of `coordinador` |
| `Display.Names` | js/auth.js:213 | `map(c => c.nombre)` keeps the order and length of the casilla list |
| `Display.CasillaText` | js/auth.js:211-217 | no casilla gives `Sin casilla asignada`; otherwise the names joined with ", " in order |
| `Display.CasillaTextRecoversNames` | js/auth.js:211-217 | for a non-empty list of comma-free names the casilla text determines the list of names |
| `Display.EmptyMarkerCollides` | js/auth.js:212-217 | no casilla and a single casilla named `Sin casilla asignada` give the same text, so the empty case is not recoverable from the text |
| `Auth.SlotOf` | js/auth.js:22-28 | saving writes the session when there is one and removes the key when there is none |
| `Auth.Loaded` | js/auth.js:9-19 | the user after a load: unchanged for a missing key, none for unparseable text, the saved session otherwise; a load never yields a user other than the previous one or the saved one |
| `Auth.LoadAfterSave` | js/auth.js:9-28 | loading what was just saved gives back the same user; a saved session is restored whatever the user was before |
| `Auth.AuthSystem.constructor` | js/auth.js:3-6 | a new façade starts with no user and takes over what storage holds; unless storage is malformed, the field and the slot then agree |
| `Auth.AuthSystem.LoadCurrentUser` | js/auth.js:9-19 | a missing key leaves the user unchanged, unparseable text resets it to none, a saved session becomes the user; storage is not touched |
| `Auth.AuthSystem.SaveCurrentUser` | js/auth.js:22-28 | afterwards the storage slot mirrors the current user |
| `Auth.AuthSystem.Login` | js/auth.js:31-51 | succeeds exactly when some record matches; on failure throws the fixed message with user and storage unchanged; on success the session holds the id, name, stored-case e-mail and permission of the first matching record, is the current user, is saved, and is returned |
| `Auth.AuthSystem.Logout` | js/auth.js:54-58 | afterwards there is no user, the storage key is removed, the façade is not authenticated, and the redirect target is `login.html` |
| `Auth.AuthSystem.IsAuthenticated` | js/auth.js:61-63 | authenticated exactly when a user is present |
| `Auth.AuthSystem.HasPermission` | js/auth.js:66-73 | false for every level without a user; otherwise the store's answer for the user's id and the level |
| `Auth.AuthSystem.IsAdmin` | js/auth.js:76-78 | a user is present and the store grants it `admin` |
| `Auth.AuthSystem.IsCoordinador` | js/auth.js:81-83 | a user is present and the store grants it `coordinador` |
| `Auth.AuthSystem.IsDesarrollador` | js/auth.js:86-88 | a user is present and the store grants it `desarrollador` |
| `Auth.AuthSystem.PageAccess` | js/auth.js:96-127 | an unprotected path is allowed; a protected path without a user redirects to login and only then; access is denied exactly when a user is present, the path needs admin and the user is not admin |
| `Auth.AuthSystem.CheckPageAccess` | js/auth.js:96-127 | true exactly when the decision is to allow: the path is unprotected, or a user is present and the path needs no admin or the user is admin |
| `Auth.AuthSystem.NoSessionIgnoresPerm` | js/auth.js:110-115 | without a user the decision does not depend on the permission check, which is never reached |
| `Auth.AuthSystem.AdminElementsShown` | js/auth.js:142-153 | admin-only elements are shown exactly when the user is admin, never without a user |
| `Auth.AuthSystem.UserInfoText` | js/auth.js:175-220 | the five handled tags get the name, the e-mail, the permission label, the permission description and the casilla text; any other tag is left alone |

## Left out

- DOM work: the element queries, the `forEach` loops and the `style.display` and `textContent`
  writes of `showAdminElements`, `hideAdminElements`, `updateUIByPermissions` and
  `updateUserInfo` (js/auth.js:142-221). Only the decision to show admin elements and the text
  each field would receive are modelled.
- Navigation and `alert` in `logout`, `redirectToLogin` and `showAccessDenied`
  (js/auth.js:57, 130-139): the gate returns the `Access` outcome instead, and `Logout` returns
  the target page.
- JSON serialisation and parsing of the stored session (js/auth.js:13, 24) and the console
  logging of a parse failure: storage holds a `Slot`; a saved session is assumed to read back
  equal, and any text that fails to parse is `Malformed`.
- Storage contents and failures: the stored text is assumed to be missing, unparseable or a
  saved session. Text that parses to some other value (`{}`, `42`, `true`) would become the
  current user in the source (js/auth.js:13), with `isAuthenticated()` true for a user without
  an id; `null` resets the user like `Malformed`. Storage calls are assumed not to throw: a
  throwing read in `loadCurrentUser` is caught and resets the user like `Malformed`
  (js/auth.js:15-17), but a throwing `setItem` in `login` would escape after `currentUser` is
  already set (js/auth.js:42-49), so such a failed login would not leave the state unchanged.
- `Text.Lower`: folds only the ASCII letters A-Z; the full Unicode case mapping of `toLowerCase`
  is not modelled.
- The external store (`db.getUsuarios`, `db.verificarPermisos`, `db.obtenerCasillasDeUsuario`)
  is not part of this model; its results are parameters. User identifiers are taken as integers;
  neither the source nor the model inspects them, they are only passed on to `perm` and
  `casillasOf`; `bloqueado` is a boolean (a missing flag counts as false in the
  source).
- `getCurrentUser` (js/auth.js:91-93) is the `currentUser` field itself.
- Aliasing of the session object: `login` and `getCurrentUser` hand out the live `currentUser`
  object (js/auth.js:50, 92), so a caller that mutates it changes the user that `hasPermission`
  and `updateUserInfo` see without touching storage, and the stored copy then no longer matches.
  `Session` here is an immutable value, so the model does not capture this.
- The global instance, the `window.auth` export and the page-load hook (js/auth.js:225-236).
