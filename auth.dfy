/** The session façade: the signed-in user, its copy in per-tab storage, and the queries and
    page gate built on them. */
module Auth {
  import opened Wrappers
  import opened Credentials
  import Text
  import Pages
  import Display

  /** The store's permission check, `db.verificarPermisos(userId, level)`, taken as given. */
  type Perm = (UserId, string) -> bool

  /** What the per-tab storage key holds: nothing (missing or empty), text that does not parse
      as a session, or a saved session. */
  datatype Slot = Empty | Malformed | Holds(session: Session)

  /** The decision `checkPageAccess` takes; the two refusals redirect to `login.html` and
      `admin.html` respectively. */
  datatype Access = Allow | RedirectLogin | AccessDenied

  const InvalidCredentials := "Credenciales incorrectas o usuario bloqueado"

  /** What saving `current` leaves in the storage slot. */
  function SlotOf(current: Option<Session>): (slot: Slot)
    ensures slot.Holds? <==> current.Some?
    ensures current.Some? ==> slot.session == current.value
    ensures current.None? ==> slot == Empty
  {
    match current
    case Some(s) => Holds(s)
    case None => Empty
  }

  /** The user after loading from `slot`, starting from `previous`: a missing key changes
      nothing, unparseable text resets to no user, a saved session is taken over. */
  function Loaded(slot: Slot, previous: Option<Session>): (r: Option<Session>)
    ensures slot.Holds? ==> r == Some(slot.session)
    ensures slot == Malformed ==> r == None
    ensures slot == Empty ==> r == previous
    ensures r.Some? ==> r == previous || r == Some(slot.session)
  {
    match slot
    case Empty => previous
    case Malformed => None
    case Holds(s) => Some(s)
  }

  /** Saving and then loading gives back the same user. */
  lemma LoadAfterSave(current: Option<Session>)
    ensures Loaded(SlotOf(current), current) == current
    ensures current.Some? ==> forall previous :: Loaded(SlotOf(current), previous) == current
  {
  }

  class AuthSystem {
    var currentUser: Option<Session>
    /** The `currentUser` key of per-tab storage. */
    var stored: Slot

    /** The storage slot holds exactly what saving the current user writes. */
    predicate Mirrored()
      reads this
    {
      stored == SlotOf(currentUser)
    }

    /** A new façade starts with no user and then loads from storage. */
    constructor (slot: Slot)
      ensures stored == slot
      ensures currentUser == Loaded(slot, None)
      ensures slot != Malformed ==> Mirrored()
    {
      currentUser := None;
      stored := slot;
      new;
      LoadCurrentUser();
    }

    method LoadCurrentUser()
      modifies this`currentUser
      ensures currentUser == Loaded(stored, old(currentUser))
      ensures stored.Holds? ==> Mirrored()
    {
      match stored
      case Empty =>
      case Malformed =>
        currentUser := None;
      case Holds(s) =>
        currentUser := Some(s);
    }

    method SaveCurrentUser()
      modifies this`stored
      ensures stored == SlotOf(currentUser)
      ensures Mirrored()
    {
      if currentUser.Some? {
        stored := Holds(currentUser.value);
      } else {
        stored := Empty;
      }
    }

    /** Signs in with the first user whose credentials match; on failure nothing changes. */
    method Login(users: seq<UserRecord>, correo: string, contrasena: string)
      returns (r: Result<Session, string>)
      modifies this
      ensures r.Success? <==> exists k :: 0 <= k < |users| && Matches(users[k], correo, contrasena)
      ensures r.Failure? ==> r.error == InvalidCredentials
      ensures r.Failure? ==> currentUser == old(currentUser) && stored == old(stored)
      ensures r.Success? ==>
        var i := FirstMatchIndex(users, correo, contrasena).value;
        && r.value == Session(users[i].id, users[i].nombre, users[i].correo, users[i].permisos)
        && Text.Lower(r.value.correo) == Text.Lower(correo)
        && currentUser == Some(r.value)
        && stored == Holds(r.value)
        && IsAuthenticated()
    {
      var found := FirstMatchIndex(users, correo, contrasena);
      if found.None? {
        return Failure(InvalidCredentials);
      }
      var usuario := users[found.value];
      currentUser := Some(ToSession(usuario));
      SaveCurrentUser();
      r := Success(currentUser.value);
    }

    /** Signs out; the redirect to the login page becomes the returned target. */
    method Logout() returns (target: string)
      modifies this
      ensures currentUser == None && stored == Empty
      ensures !IsAuthenticated()
      ensures Mirrored()
      ensures target == "login.html"
    {
      currentUser := None;
      SaveCurrentUser();
      target := "login.html";
    }

    function IsAuthenticated(): (r: bool)
      reads this
      ensures r <==> currentUser != None
    {
      currentUser.Some?
    }

    /** `hasPermission(level)`: false without a session, else the store's answer for the user. */
    function HasPermission(perm: Perm, level: string): (r: bool)
      reads this
      ensures !IsAuthenticated() ==> !r
      ensures IsAuthenticated() ==> r == perm(currentUser.value.id, level)
    {
      if !IsAuthenticated() then false
      else perm(currentUser.value.id, level)
    }

    function IsAdmin(perm: Perm): (r: bool)
      reads this
      ensures r <==> currentUser.Some? && perm(currentUser.value.id, "admin")
    {
      HasPermission(perm, "admin")
    }

    function IsCoordinador(perm: Perm): (r: bool)
      reads this
      ensures r <==> currentUser.Some? && perm(currentUser.value.id, "coordinador")
    {
      HasPermission(perm, "coordinador")
    }

    function IsDesarrollador(perm: Perm): (r: bool)
      reads this
      ensures r <==> currentUser.Some? && perm(currentUser.value.id, "desarrollador")
    {
      HasPermission(perm, "desarrollador")
    }

    /** The decision `checkPageAccess` takes for the page at `path`. */
    function PageAccess(path: string, perm: Perm): (d: Access)
      reads this
      ensures !Pages.IsProtected(path) ==> d == Allow
      ensures Pages.IsProtected(path) && !IsAuthenticated() ==> d == RedirectLogin
      ensures d == RedirectLogin <==> Pages.IsProtected(path) && !IsAuthenticated()
      ensures d == AccessDenied <==>
        IsAuthenticated() && Pages.RequiresAdmin(path) && !IsAdmin(perm)
    {
      if Pages.IsProtected(path) then
        if !IsAuthenticated() then RedirectLogin
        else if Pages.RequiresAdmin(path) && !IsAdmin(perm) then AccessDenied
        else Allow
      else Allow
    }

    /** `checkPageAccess()`: true exactly when the page may be shown. */
    function CheckPageAccess(path: string, perm: Perm): (ok: bool)
      reads this
      ensures ok <==> PageAccess(path, perm) == Allow
      ensures ok <==>
        (!Pages.IsProtected(path) || (IsAuthenticated() && (!Pages.RequiresAdmin(path) || IsAdmin(perm))))
    {
      PageAccess(path, perm) == Allow
    }

    /** Without a session the gate never consults the permission check. */
    lemma NoSessionIgnoresPerm(path: string, p1: Perm, p2: Perm)
      requires !IsAuthenticated()
      ensures PageAccess(path, p1) == PageAccess(path, p2)
    {
    }

    /** Whether `updateUIByPermissions` shows the admin-only elements. */
    function AdminElementsShown(perm: Perm): (shown: bool)
      reads this
      ensures shown <==> IsAdmin(perm)
      ensures !IsAuthenticated() ==> !shown
    {
      if !IsAuthenticated() then false else IsAdmin(perm)
    }

    /** The text `updateUserInfo` writes into an element tagged with `infoType`, or None when the
        tag is not one it handles. */
    function UserInfoText(infoType: string, casillasOf: UserId -> seq<Display.Casilla>): (t: Option<string>)
      reads this
      requires IsAuthenticated()
      ensures t.Some? <==> infoType in {"nombre", "correo", "permisos", "permisos-desc", "casilla"}
      ensures infoType == "nombre" ==> t == Some(currentUser.value.nombre)
      ensures infoType == "correo" ==> t == Some(currentUser.value.correo)
      ensures infoType == "permisos" ==> t == Some(Display.PermissionLabel(currentUser.value.permisos))
      ensures infoType == "permisos-desc" ==> t == Some(Display.PermissionDescription(currentUser.value.permisos))
      ensures infoType == "casilla" ==> t == Some(Display.CasillaText(casillasOf(currentUser.value.id)))
    {
      var u := currentUser.value;
      if infoType == "nombre" then Some(u.nombre)
      else if infoType == "correo" then Some(u.correo)
      else if infoType == "permisos" then Some(Display.PermissionLabel(u.permisos))
      else if infoType == "permisos-desc" then Some(Display.PermissionDescription(u.permisos))
      else if infoType == "casilla" then Some(Display.CasillaText(casillasOf(u.id)))
      else None
    }
  }

  /** A user whose stored address is `A@x.com` signs in with `a@x.com` and is an admin when the
      store says so; the same user, blocked, is refused and leaves the façade signed out. */
  method SignInScenarios(perm: Perm)
    requires perm(1, "admin")
  {
    var ana := UserRecord(1, "Ana", "A@x.com", "p", "admin", false);
    assert Matches(ana, "a@x.com", "p");
    assert [ana][0] == ana;
    var auth := new AuthSystem(Empty);
    var r := auth.Login([ana], "a@x.com", "p");
    assert r.Success? && r.value.permisos == "admin" && r.value.correo == "A@x.com";
    assert auth.IsAdmin(perm);
    var gone := auth.Logout();
    assert !auth.HasPermission(perm, "admin");

    var blocked := ana.(bloqueado := true);
    var other := new AuthSystem(Empty);
    assert [blocked][0] == blocked;
    r := other.Login([blocked], "a@x.com", "p");
    assert r.Failure? && !other.IsAuthenticated();
    assert other.PageAccess("/pages/configuracion.html", perm) == RedirectLogin by {
      Text.IncludesSelf("/pages/configuracion.html");
    }
    assert other.CheckPageAccess("/pages/configuracion.html", perm) == false;
  }
}
