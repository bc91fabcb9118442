/** The text `updateUserInfo` writes into the permission, description and casilla fields. */
module Display {
  import Text

  /** An assigned casilla (resource) as the external store returns it. */
  datatype Casilla = Casilla(nombre: string)

  /** The label shown for a permission string. */
  function PermissionLabel(permisos: string): (text: string)
    ensures text == "Desarrollador" <==> permisos == "desarrollador"
    ensures text == "Coordinador" <==> permisos == "coordinador"
    ensures text == "Administrador" <==> permisos == "admin"
    ensures text == "Usuario" <==> permisos !in {"desarrollador", "coordinador", "admin"}
  {
    if permisos == "desarrollador" then "Desarrollador"
    else if permisos == "coordinador" then "Coordinador"
    else if permisos == "admin" then "Administrador"
    else "Usuario"
  }

  /** The description shown for a permission string; the legacy role `admin` shares the
      description of `coordinador`. */
  function PermissionDescription(permisos: string): (desc: string)
    ensures desc == "Acceso completo al sistema" <==> permisos == "desarrollador"
    ensures desc == "Acceso administrativo" <==> permisos in {"coordinador", "admin"}
    ensures desc == "Solo puede gestionar turnos" <==> permisos !in {"desarrollador", "coordinador", "admin"}
  {
    if permisos == "desarrollador" then "Acceso completo al sistema"
    else if permisos == "coordinador" then "Acceso administrativo"
    else if permisos == "admin" then "Acceso administrativo"
    else "Solo puede gestionar turnos"
  }

  /** The description is a function of the label, but not the other way round: `admin` and
      `coordinador` get different labels and the same description. */
  lemma DescriptionFollowsLabel(p: string, q: string)
    ensures PermissionLabel(p) == PermissionLabel(q) ==> PermissionDescription(p) == PermissionDescription(q)
    ensures PermissionLabel("admin") != PermissionLabel("coordinador")
    ensures PermissionDescription("admin") == PermissionDescription("coordinador")
  {
  }

  /** The names of the casillas, in order. */
  function Names(casillas: seq<Casilla>): (names: seq<string>)
    ensures |names| == |casillas|
    ensures forall k :: 0 <= k < |casillas| ==> names[k] == casillas[k].nombre
  {
    seq(|casillas|, k requires 0 <= k < |casillas| => casillas[k].nombre)
  }

  const NoCasilla := "Sin casilla asignada"

  /** The casilla field: the names joined with ", " in order, or a fixed text when none is assigned. */
  function CasillaText(casillas: seq<Casilla>): (text: string)
    ensures casillas == [] ==> text == NoCasilla
    ensures casillas != [] ==> text == Text.Join(Names(casillas), ", ")
  {
    if |casillas| > 0 then Text.Join(Names(casillas), ", ") else NoCasilla
  }

  /** The empty list and a single casilla named like the marker text give the same text, so the
      text alone cannot tell "no casilla" from that one casilla. */
  lemma EmptyMarkerCollides()
    ensures CasillaText([]) == CasillaText([Casilla(NoCasilla)])
  {
    assert Names([Casilla(NoCasilla)]) == [NoCasilla];
  }

  /** For a non-empty list of comma-free names the casilla text determines the names. */
  lemma {:induction false} CasillaTextRecoversNames(casillas: seq<Casilla>)
    requires casillas != []
    requires forall k :: 0 <= k < |casillas| ==> ',' !in casillas[k].nombre
    ensures Text.SplitNames(CasillaText(casillas)) == Names(casillas)
  {
    Text.SplitJoin(Names(casillas));
  }
}
