/** User creation (`crearUsuario` of the class and of the function module),
    as written, and the corrected check that the rest of the model uses. */
module UserService {
  import opened Wrappers
  import opened Domain
  import Clock
  import UserStore

  /** The creation request; `rol` may be absent. */
  datatype NuevoUsuario = NuevoUsuario(nombre: string, apellido: string, fechaNacimiento: string,
                                       email: string, rol: Option<UsuarioRol>)

  datatype Error = EmailEnUso

  /** The user written, with the user list after the write. */
  datatype UsuarioCreado = UsuarioCreado(usuarios: seq<Usuario>, usuario: Usuario)

  function CodigoUsuario(sufijo: string): string
  {
    Codigo("USR-", sufijo)
  }

  /** `data.rol || UsuarioRol.NORMAL`. */
  function RolOPorDefecto(rol: Option<UsuarioRol>): (r: UsuarioRol)
    ensures rol.Some? ==> r == rol.value
    ensures rol.None? ==> r.NORMAL?
  {
    match rol
    case Some(x) => x
    case None => NORMAL
  }

  /** The record both versions build: ACTIVO, the request copied, stamped with the shifted clock. */
  function NuevoRegistro(reloj: int, dto: NuevoUsuario, id: string, sufijo: string): Usuario
  {
    var ahora := Clock.NewDate(reloj);
    Usuario(id, CodigoUsuario(sufijo), dto.nombre, dto.apellido, dto.fechaNacimiento, dto.email,
            RolOPorDefecto(dto.rol), UsuarioEstado.ACTIVO, ahora, ahora)
  }

  /** `crearUsuario` as written: refused exactly when the FIRST user with the
      email is ACTIVO; otherwise one ACTIVO user is appended. */
  function CrearUsuario(usuarios: seq<Usuario>, reloj: int, dto: NuevoUsuario, id: string, sufijo: string): (r: Result<UsuarioCreado, Error>)
    ensures r.Err? <==> UserStore.FindByEmail(usuarios, dto.email).Some?
                        && UserStore.FindByEmail(usuarios, dto.email).value.estado.ACTIVO?
    ensures r.Ok? ==> r.value.usuarios == usuarios + [r.value.usuario]
    ensures r.Ok? ==>
              var u := r.value.usuario;
              && u.estado.ACTIVO?
              && u.rol == (if dto.rol.Some? then dto.rol.value else NORMAL)
              && u.nombre == dto.nombre && u.apellido == dto.apellido
              && u.fechaNacimiento == dto.fechaNacimiento && u.email == dto.email
              && u.createdAt == u.updatedAt == Clock.NewDate(reloj)
              && u.id == id && u.codigo == CodigoUsuario(sufijo)
  {
    var existente := UserStore.FindByEmail(usuarios, dto.email);
    if existente.Some? && existente.value.estado.ACTIVO? then Err(EmailEnUso)
    else
      var usuario := NuevoRegistro(reloj, dto, id, sufijo);
      Ok(UsuarioCreado(UserStore.Save(usuarios, usuario), usuario))
  }

  /** At most one ACTIVO user per email. */
  ghost predicate EmailsActivosUnicos(usuarios: seq<Usuario>)
  {
    forall i, j :: 0 <= i < |usuarios| && 0 <= j < |usuarios| && i != j
      && usuarios[i].estado.ACTIVO? && usuarios[j].estado.ACTIVO?
      ==> usuarios[i].email != usuarios[j].email
  }

  /** The check as written lets a second ACTIVO user with an email in when an
      earlier, BORRADO user holds the same email. */
  lemma CrearUsuarioDuplicaEmail()
    ensures var a := Usuario("a", "USR-A", "Ana", "Paz", "1990-01-01", "x@y", NORMAL, UsuarioEstado.BORRADO, 0, 0);
            var b := Usuario("b", "USR-B", "Ana", "Paz", "1990-01-01", "x@y", NORMAL, UsuarioEstado.ACTIVO, 0, 0);
            var r := CrearUsuario([a, b], 0, NuevoUsuario("Ana", "Paz", "1990-01-01", "x@y", None), "c", "C");
            && EmailsActivosUnicos([a, b])
            && r.Ok?
            && !EmailsActivosUnicos(r.value.usuarios)
  {
    var a := Usuario("a", "USR-A", "Ana", "Paz", "1990-01-01", "x@y", NORMAL, UsuarioEstado.BORRADO, 0, 0);
    var b := Usuario("b", "USR-B", "Ana", "Paz", "1990-01-01", "x@y", NORMAL, UsuarioEstado.ACTIVO, 0, 0);
    var r := CrearUsuario([a, b], 0, NuevoUsuario("Ana", "Paz", "1990-01-01", "x@y", None), "c", "C");
    assert UserStore.FindByEmail([a, b], "x@y") == Some(a);
    assert r.value.usuarios[1].estado.ACTIVO? && r.value.usuarios[2].estado.ACTIVO?;
  }

  /** Whether any ACTIVO user has the email. */
  function HayActivoConEmail(usuarios: seq<Usuario>, email: string): (b: bool)
    ensures b <==> exists i :: 0 <= i < |usuarios| && usuarios[i].email == email && usuarios[i].estado.ACTIVO?
    decreases |usuarios|
  {
    if |usuarios| == 0 then false
    else (usuarios[0].email == email && usuarios[0].estado.ACTIVO?) || HayActivoConEmail(usuarios[1..], email)
  }

  /** `crearUsuario` as its error message means it: refused when any ACTIVO
      user holds the email, so the one-ACTIVO-user-per-email rule is kept. */
  function CrearUsuarioSinDuplicar(usuarios: seq<Usuario>, reloj: int, dto: NuevoUsuario, id: string, sufijo: string): (r: Result<UsuarioCreado, Error>)
    ensures r.Err? <==> exists i :: 0 <= i < |usuarios| && usuarios[i].email == dto.email && usuarios[i].estado.ACTIVO?
    ensures r.Ok? ==> r.value.usuarios == usuarios + [r.value.usuario]
                      && r.value.usuario == NuevoRegistro(reloj, dto, id, sufijo)
    ensures r.Ok? && EmailsActivosUnicos(usuarios) ==> EmailsActivosUnicos(r.value.usuarios)
  {
    if HayActivoConEmail(usuarios, dto.email) then Err(EmailEnUso)
    else
      var usuario := NuevoRegistro(reloj, dto, id, sufijo);
      Ok(UsuarioCreado(UserStore.Save(usuarios, usuario), usuario))
  }

  /** The two checks agree whenever the first user holding an email is the
      only one that can be ACTIVO, e.g. when emails are unique. */
  lemma CrearUsuarioCoincide(usuarios: seq<Usuario>, reloj: int, dto: NuevoUsuario, id: string, sufijo: string)
    requires forall i, j :: 0 <= i < j < |usuarios| && usuarios[i].email == usuarios[j].email ==> !usuarios[j].estado.ACTIVO?
    ensures CrearUsuario(usuarios, reloj, dto, id, sufijo) == CrearUsuarioSinDuplicar(usuarios, reloj, dto, id, sufijo)
  {
    var k := UserStore.IndexByEmail(usuarios, dto.email);
    if k.Some? {
      assert forall j :: 0 <= j < |usuarios| && usuarios[j].email == dto.email && j != k.value ==> k.value < j;
    }
  }
}
