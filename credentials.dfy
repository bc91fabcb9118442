/** User records as the external store holds them, the reduced session record, and the
    credential search that `login` performs over the store's user list. */
module Credentials {
  import opened Wrappers
  import Text

  /** The store's user identifier; identifiers are never inspected, only
      passed on to the store's permission and casilla lookups. */
  type UserId = int

  /** A user as the external store returns it (read-only here). */
  datatype UserRecord = UserRecord(
    id: UserId,
    nombre: string,
    correo: string,
    contrasena: string,
    permisos: string,
    bloqueado: bool)

  /** The reduced record kept for the signed-in user: no password, no blocked flag. */
  datatype Session = Session(id: UserId, nombre: string, correo: string, permisos: string)

  /** The test `login` passes to `find`: e-mail equal after lower-casing both sides, password
      exactly equal, user not blocked. */
  predicate Matches(u: UserRecord, correo: string, contrasena: string): (r: bool)
    ensures r ==> u.contrasena == contrasena && !u.bloqueado
  {
    Text.Lower(u.correo) == Text.Lower(correo) && u.contrasena == contrasena && !u.bloqueado
  }

  /** Typing the e-mail already lower-cased makes no difference to the match. */
  lemma MatchesLowerInput(u: UserRecord, correo: string, contrasena: string)
    ensures Matches(u, Text.Lower(correo), contrasena) == Matches(u, correo, contrasena)
  {
    Text.LowerIdempotent(correo);
  }

  /** The position `find` stops at: the first record that matches, or None when none does. */
  function FirstMatchIndex(users: seq<UserRecord>, correo: string, contrasena: string): (r: Option<nat>)
    ensures r.None? <==> forall k :: 0 <= k < |users| ==> !Matches(users[k], correo, contrasena)
    ensures r.Some? ==> r.value < |users| && Matches(users[r.value], correo, contrasena)
    ensures r.Some? ==> forall k :: 0 <= k < r.value ==> !Matches(users[k], correo, contrasena)
  {
    if users == [] then None
    else if Matches(users[0], correo, contrasena) then Some(0)
    else match FirstMatchIndex(users[1..], correo, contrasena)
      case None => None
      case Some(k) => Some(k + 1)
  }

  /** The session record built from a matched user: the four public fields, copied unchanged. */
  function ToSession(u: UserRecord): (s: Session)
    ensures s.id == u.id && s.nombre == u.nombre && s.correo == u.correo && s.permisos == u.permisos
  {
    Session(u.id, u.nombre, u.correo, u.permisos)
  }

  /** Only the lower-cased form of the typed e-mail matters: two inputs that fold to the same
      text select the same record. */
  lemma {:induction false} FirstMatchIgnoresInputCase(users: seq<UserRecord>, e1: string, e2: string, contrasena: string)
    requires Text.Lower(e1) == Text.Lower(e2)
    ensures FirstMatchIndex(users, e1, contrasena) == FirstMatchIndex(users, e2, contrasena)
  {
    if users != [] {
      FirstMatchIgnoresInputCase(users[1..], e1, e2, contrasena);
    }
  }

  /** The session keeps neither the password nor the blocked flag: records that differ only in
      those give the same session. */
  lemma SessionDropsSecrets(u: UserRecord, contrasena: string, bloqueado: bool)
    ensures ToSession(u.(contrasena := contrasena, bloqueado := bloqueado)) == ToSession(u)
  {
  }

  /** A blocked user is never selected, whatever is typed. */
  lemma BlockedNeverSelected(users: seq<UserRecord>, correo: string, contrasena: string)
    ensures forall r :: FirstMatchIndex(users, correo, contrasena) == Some(r) ==> !users[r].bloqueado
  {
  }
}
