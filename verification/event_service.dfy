/** Event creation (`crearEvento` of the class and of the function module).
    `obtenerEvento` is `EventStore.FindById` and `listarEventos` the list itself. */
module EventService {
  import opened Domain
  import Clock
  import EventStore

  /** The creation request. */
  datatype NuevoEvento = NuevoEvento(nombre: string, fechaHora: int, cupoTotal: int)

  /** The event written, with the event list after the write. */
  datatype EventoCreado = EventoCreado(eventos: seq<Evento>, evento: Evento)

  function CodigoEvento(sufijo: string): string
  {
    Codigo("EVT-", sufijo)
  }

  /** A new event is always ACTIVO, copies the request, is stamped with the
      shifted clock, and is appended to the store exactly once. There is no
      validation and no failure. */
  function CrearEvento(eventos: seq<Evento>, reloj: int, dto: NuevoEvento, id: string, sufijo: string): (r: EventoCreado)
    ensures r.evento.estado.ACTIVO?
    ensures r.evento.id == id && r.evento.codigo == CodigoEvento(sufijo)
    ensures r.evento.nombre == dto.nombre && r.evento.fechaHora == dto.fechaHora && r.evento.cupoTotal == dto.cupoTotal
    ensures r.evento.createdAt == r.evento.updatedAt == Clock.NewDate(reloj)
    ensures |r.eventos| == |eventos| + 1 && r.eventos[..|eventos|] == eventos && r.eventos[|eventos|] == r.evento
  {
    var ahora := Clock.NewDate(reloj);
    var evento := Evento(id, CodigoEvento(sufijo), dto.nombre, dto.fechaHora, dto.cupoTotal,
                         EventoEstado.ACTIVO, ahora, ahora);
    EventoCreado(EventStore.AgregarEvento(eventos, evento), evento)
  }
}
