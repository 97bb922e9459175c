/** The development session: a query parameter switches a sticky admin flag,
    and every request is served as one of two fixed users. */
module MockUser {
  import opened Wrappers
  import opened Domain

  /** The regular mock user; `cargado` is the instant the module was loaded. */
  function UsuarioNormal(cargado: int): (u: Usuario)
    ensures u.rol.NORMAL? && u.estado.ACTIVO?
  {
    Usuario("c4a77a7f-0b9d-4309-83e9-1fba79246083", "USR-NRG3KG", "Juan", "Pérez", "1990-05-15",
            "juan.perez@example.com", NORMAL, UsuarioEstado.ACTIVO, cargado, cargado)
  }

  /** The administrator mock user. */
  function UsuarioAdmin(cargado: int): (u: Usuario)
    ensures u.rol.ADMIN? && u.estado.ACTIVO?
    ensures u.id != UsuarioNormal(cargado).id && u.email != UsuarioNormal(cargado).email
  {
    Usuario("a58d6f81-7502-464e-be2c-144c9a8df4ab", "USR-ADMIN1", "Admin", "Sistema", "1985-01-01",
            "admin@example.com", ADMIN, UsuarioEstado.ACTIVO, cargado, cargado)
  }

  /** The session flag after a request's `admin` query parameter: "true" and
      "false" set it, anything else (or nothing) leaves it. */
  function ActualizarFlag(flag: Option<bool>, admin: Option<string>): (r: Option<bool>)
    ensures admin == Some("true") ==> r == Some(true)
    ensures admin == Some("false") ==> r == Some(false)
    ensures admin != Some("true") && admin != Some("false") ==> r == flag
  {
    if admin == Some("true") then Some(true)
    else if admin == Some("false") then Some(false)
    else flag
  }

  /** The user a request is served as: the administrator exactly when the flag is set to true. */
  function Resolver(flag: Option<bool>, cargado: int): (u: Usuario)
    ensures u.rol.ADMIN? <==> flag == Some(true)
    ensures u.estado.ACTIVO?
    ensures u == UsuarioAdmin(cargado) || u == UsuarioNormal(cargado)
  {
    if flag == Some(true) then UsuarioAdmin(cargado) else UsuarioNormal(cargado)
  }

  /** One pass of the middleware: the new flag and the user attached to the request. */
  datatype Sesion = Sesion(flag: Option<bool>, usuario: Usuario)

  function Middleware(flag: Option<bool>, admin: Option<string>, cargado: int): (r: Sesion)
    ensures r.usuario.rol.ADMIN? <==> admin == Some("true") || (admin != Some("false") && flag == Some(true))
    ensures r.flag == ActualizarFlag(flag, admin)
  {
    var nuevo := ActualizarFlag(flag, admin);
    Sesion(nuevo, Resolver(nuevo, cargado))
  }

  /** The flag after a session's requests, in order. */
  function FlagTras(flag: Option<bool>, consultas: seq<Option<string>>): Option<bool>
    decreases |consultas|
  {
    if |consultas| == 0 then flag else FlagTras(ActualizarFlag(flag, consultas[0]), consultas[1..])
  }

  /** Reference definition: the last "true" or "false" the session saw, if any. */
  function UltimaOrden(consultas: seq<Option<string>>): Option<bool>
    decreases |consultas|
  {
    if |consultas| == 0 then None
    else
      var c := consultas[|consultas| - 1];
      if c == Some("true") then Some(true)
      else if c == Some("false") then Some(false)
      else UltimaOrden(consultas[..|consultas| - 1])
  }

  /** Appending one request to a session. */
  lemma {:induction false} FlagTrasUltima(flag: Option<bool>, consultas: seq<Option<string>>, c: Option<string>)
    ensures FlagTras(flag, consultas + [c]) == ActualizarFlag(FlagTras(flag, consultas), c)
    decreases |consultas|
  {
    if |consultas| == 0 {
      assert consultas + [c] == [c];
    } else {
      assert (consultas + [c])[1..] == consultas[1..] + [c];
      FlagTrasUltima(ActualizarFlag(flag, consultas[0]), consultas[1..], c);
    }
  }

  /** The flag is decided by the last "true"/"false" the session saw; with
      none, it is what it was, so a fresh session serves the regular user. */
  lemma {:induction false} UltimaOrdenDecide(flag: Option<bool>, consultas: seq<Option<string>>)
    ensures FlagTras(flag, consultas) == if UltimaOrden(consultas).Some? then UltimaOrden(consultas) else flag
    ensures flag.None? && UltimaOrden(consultas).None? ==> Resolver(FlagTras(flag, consultas), 0).rol.NORMAL?
    decreases |consultas|
  {
    if |consultas| > 0 {
      var init := consultas[..|consultas| - 1];
      var c := consultas[|consultas| - 1];
      assert consultas == init + [c];
      FlagTrasUltima(flag, init, c);
      UltimaOrdenDecide(flag, init);
    }
  }
}
