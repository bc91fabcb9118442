/** The two fixed page lists `checkPageAccess` tests the current path against. */
module Pages {
  import Text

  /** Pages that require a signed-in user. */
  const ProtectedPages: seq<string> := ["/pages/admin.html", "/pages/configuracion.html"]

  /** Pages that additionally require the admin permission. */
  const AdminPages: seq<string> := ["/pages/configuracion.html"]

  /** `pages.some(page => path.includes(page))`. */
  function IncludesAny(path: string, pages: seq<string>): (r: bool)
    ensures r <==> exists k :: 0 <= k < |pages| && Text.Includes(path, pages[k])
  {
    if pages == [] then false
    else Text.Includes(path, pages[0]) || IncludesAny(path, pages[1..])
  }

  /** The path needs a session: it contains one of the two protected page names. */
  predicate IsProtected(path: string)
    ensures IsProtected(path) <==>
      Text.Includes(path, "/pages/admin.html") || Text.Includes(path, "/pages/configuracion.html")
  {
    assert |ProtectedPages| == 2;
    assert ProtectedPages[0] == "/pages/admin.html" && ProtectedPages[1] == "/pages/configuracion.html";
    IncludesAny(path, ProtectedPages)
  }

  /** The path needs the admin permission: it contains the configuration page name, and is
      therefore protected as well. */
  predicate RequiresAdmin(path: string)
    ensures RequiresAdmin(path) <==> Text.Includes(path, "/pages/configuracion.html")
    ensures RequiresAdmin(path) ==> IsProtected(path)
  {
    assert ProtectedPages[1..] == AdminPages;
    IncludesAny(path, AdminPages)
  }
}
