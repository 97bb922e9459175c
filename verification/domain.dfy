/** The records and enumerations of the ticketing system. Instants are
    milliseconds since the epoch (the source stores ISO strings and parses
    them with `new Date`); ids and codes are opaque strings. */
module Domain {
  import opened Wrappers

  /** Ticket states: reserved but unpaid, paid, used at the door, cancelled. */
  datatype EntradaEstado = NUEVA | ACTIVA | UTILIZADA | CANCELADA

  datatype EventoEstado = ACTIVO | CANCELADO | FINALIZADO

  datatype UsuarioEstado = ACTIVO | BORRADO

  datatype UsuarioRol = NORMAL | ADMIN

  /** A reservation of `cantidadLocalidades` places at one event, owned by one user. */
  datatype Entrada = Entrada(
    id: string,
    codigo: string,
    eventoId: string,
    usuarioId: string,
    cantidadLocalidades: int,
    estado: EntradaEstado,
    fechaReserva: int,
    fechaPago: Option<int>,
    fechaUso: Option<int>,
    createdAt: int,
    updatedAt: int)

  datatype Evento = Evento(
    id: string,
    codigo: string,
    nombre: string,
    fechaHora: int,
    cupoTotal: int,
    estado: EventoEstado,
    createdAt: int,
    updatedAt: int)

  datatype Usuario = Usuario(
    id: string,
    codigo: string,
    nombre: string,
    apellido: string,
    fechaNacimiento: string,
    email: string,
    rol: UsuarioRol,
    estado: UsuarioEstado,
    createdAt: int,
    updatedAt: int)

  /** The three stores the services work on. */
  datatype Store = Store(eventos: seq<Evento>, usuarios: seq<Usuario>, entradas: seq<Entrada>)

  /** The string an event state is stored as, which the home filter compares against. */
  function EventoEstadoNombre(e: EventoEstado): string
  {
    match e
    case ACTIVO => "ACTIVO"
    case CANCELADO => "CANCELADO"
    case FINALIZADO => "FINALIZADO"
  }

  const HORA_MS: int := 60 * 60 * 1000

  /** A record code: the fixed prefix of its kind followed by the random suffix. */
  function Codigo(prefijo: string, sufijo: string): (c: string)
    ensures |c| == |prefijo| + |sufijo| && c[..|prefijo|] == prefijo && c[|prefijo|..] == sufijo
  {
    prefijo + sufijo
  }

  /** Within one kind the suffix determines the code and the code the suffix,
      so a lookup by "prefix + input" finds exactly the record made with that
      suffix; codes of different kinds never coincide. */
  lemma CodigoInyectivo(prefijo: string, otro: string, s1: string, s2: string)
    requires |prefijo| == |otro|
    ensures Codigo(prefijo, s1) == Codigo(otro, s2) <==> prefijo == otro && s1 == s2
  {
    if Codigo(prefijo, s1) == Codigo(otro, s2) {
      assert prefijo == Codigo(prefijo, s1)[..|prefijo|];
      assert s1 == Codigo(prefijo, s1)[|prefijo|..];
    }
  }
}
