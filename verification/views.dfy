/** The decisions of the server-rendered pages, without the rendering: which
    response a request gets, what it shows, and what it changes. Each page
    calls the engine version its controller is wired to. */
module Views {
  import opened Wrappers
  import opened Domain
  import opened Clock
  import ListStore
  import TicketStore
  import EventStore
  import Occupancy
  import Engine

  /** Simulated price of one place. */
  const PRECIO_POR_LOCALIDAD: int := 5000

  /** The total shown for a ticket. */
  function Precio(cantidad: int): (r: int)
    ensures r % PRECIO_POR_LOCALIDAD == 0 && r / PRECIO_POR_LOCALIDAD == cantidad
    ensures cantidad > 0 ==> r >= PRECIO_POR_LOCALIDAD
  {
    cantidad * PRECIO_POR_LOCALIDAD
  }

  // ---- display occupancy ----

  /** The pages' `calcularLocalidadesOcupadas`: the event's tickets in NUEVA,
      ACTIVA or UTILIZADA, summed. */
  function OcupadasVista(entradas: seq<Entrada>, eventoId: string): int
  {
    Occupancy.SumaCantidades(ListStore.Filter(entradas, (t: Entrada) => t.eventoId == eventoId && Occupancy.Mostrada(t.estado)))
  }

  /** The pages count the used places on top of the engine's count. */
  lemma OcupadasVistaSuma(entradas: seq<Entrada>, eventoId: string)
    ensures OcupadasVista(entradas, eventoId)
            == Occupancy.Ocupadas(entradas, eventoId) + Occupancy.SumaDe(entradas, eventoId, Occupancy.Utilizada)
  {
    Occupancy.SumaFiltrada(entradas, (t: Entrada) => t.eventoId == eventoId && Occupancy.Mostrada(t.estado), eventoId, Occupancy.Mostrada);
    Occupancy.SumaDeSplit(entradas, eventoId, Occupancy.Mostrada, Occupancy.Vigente, Occupancy.Utilizada);
    Occupancy.OcupadasEsSumaDeVigentes(entradas, eventoId);
  }

  /** So with non-negative quantities the pages never show fewer places
      taken than the engine counts. */
  lemma OcupadasVistaCubreMotor(entradas: seq<Entrada>, eventoId: string)
    requires forall i :: 0 <= i < |entradas| ==> entradas[i].cantidadLocalidades >= 0
    ensures OcupadasVista(entradas, eventoId) >= Occupancy.Ocupadas(entradas, eventoId)
  {
    OcupadasVistaSuma(entradas, eventoId);
    Occupancy.SumaDeNonNegative(entradas, eventoId, Occupancy.Utilizada);
  }

  // ---- responses ----

  /** What a page answers; the source's HTTP status follows from the case. */
  datatype Respuesta<T> =
    | Pagina(valor: T)
    | NoAutenticado
    | Prohibido
    | EventoNoEncontrado
    | EntradaNoEncontrada
    | NoCorresponde
    | Rechazo(error: Engine.Error)

  /** A response together with the store after the request. */
  datatype Servida<T> = Servida(store: Store, respuesta: Respuesta<T>)

  /** The caller is missing or has an empty id (`if (!usuarioId)`). */
  predicate SinUsuario(caller: Option<Usuario>)
  {
    caller.None? || caller.value.id == ""
  }

  /** `entrada.usuarioId !== req.user?.id` is false: an absent caller owns nothing. */
  predicate EsDueno(caller: Option<Usuario>, t: Entrada)
  {
    caller.Some? && caller.value.id == t.usuarioId
  }

  /** `req.user?.rol === UsuarioRol.ADMIN`. */
  predicate EsAdmin(caller: Option<Usuario>)
  {
    caller.Some? && caller.value.rol.ADMIN?
  }

  // ---- event pages ----

  datatype Disponibilidad = Disponibilidad(evento: Evento, ocupadas: int, disponibles: int)

  /** `eventoDetalle` and `formReservarEntrada`: the event and its free places as displayed. */
  function VerDisponibilidad(st: Store, id: string): (r: Respuesta<Disponibilidad>)
    ensures r.EventoNoEncontrado? <==> EventStore.FindById(st.eventos, id).None?
    ensures r.Pagina? || r.EventoNoEncontrado?
    ensures r.Pagina? ==> r.valor.evento == EventStore.FindById(st.eventos, id).value
                          && r.valor.ocupadas + r.valor.disponibles == r.valor.evento.cupoTotal
                          && r.valor.ocupadas == OcupadasVista(st.entradas, r.valor.evento.id)
  {
    match EventStore.FindById(st.eventos, id)
    case None => EventoNoEncontrado
    case Some(evento) =>
      var ocupadas := OcupadasVista(st.entradas, evento.id);
      Pagina(Disponibilidad(evento, ocupadas, evento.cupoTotal - ocupadas))
  }

  /** The free places a page shows never exceed what the engine would still
      sell, and fall short of it by exactly the used places. */
  lemma DisponiblesVistaNoSuperaMotor(st: Store, id: string)
    requires forall i :: 0 <= i < |st.entradas| ==> st.entradas[i].cantidadLocalidades >= 0
    requires VerDisponibilidad(st, id).Pagina?
    ensures VerDisponibilidad(st, id).valor.disponibles
            == Engine.Disponibles(st, id) - Occupancy.SumaDe(st.entradas, id, Occupancy.Utilizada)
    ensures VerDisponibilidad(st, id).valor.disponibles <= Engine.Disponibles(st, id)
  {
    var ev := EventStore.FindById(st.eventos, id).value;
    OcupadasVistaSuma(st.entradas, ev.id);
    Occupancy.SumaDeNonNegative(st.entradas, ev.id, Occupancy.Utilizada);
  }

  // ---- ticket pages ----

  datatype Detalle = Detalle(entrada: Entrada, evento: Evento, precioTotal: int)

  /** `formPagarEntrada` and `entradaDetalle`: only the ticket's owner sees it. */
  function VerEntrada(st: Store, caller: Option<Usuario>, id: string): (r: Respuesta<Detalle>)
    ensures r.EntradaNoEncontrada? <==> TicketStore.FindById(st.entradas, id).None?
    ensures r.Prohibido? <==> TicketStore.FindById(st.entradas, id).Some? && !EsDueno(caller, TicketStore.FindById(st.entradas, id).value)
    ensures r.Pagina? ==> && r.valor.entrada == TicketStore.FindById(st.entradas, id).value
                          && EsDueno(caller, r.valor.entrada)
                          && EventStore.FindById(st.eventos, r.valor.entrada.eventoId) == Some(r.valor.evento)
                          && r.valor.precioTotal == Precio(r.valor.entrada.cantidadLocalidades)
    ensures r.Pagina? || r.EntradaNoEncontrada? || r.Prohibido? || r.EventoNoEncontrado?
  {
    match TicketStore.FindById(st.entradas, id)
    case None => EntradaNoEncontrada
    case Some(entrada) =>
      if !EsDueno(caller, entrada) then Prohibido
      else match EventStore.FindById(st.eventos, entrada.eventoId)
        case None => EventoNoEncontrado
        case Some(evento) => Pagina(Detalle(entrada, evento, Precio(entrada.cantidadLocalidades)))
  }

  /** The confirmation page: the new ticket and the event it was reserved for. */
  datatype Confirmacion = Confirmacion(entrada: Entrada, evento: Evento)

  /** `procesarReserva`: reserves in the caller's own name, or changes nothing. */
  function ProcesarReserva(v: Version, st: Store, reloj: int, caller: Option<Usuario>, eventoId: string,
                           cantidad: int, id: string, sufijo: string): (r: Servida<Confirmacion>)
    ensures SinUsuario(caller) ==> r == Servida(st, NoAutenticado)
    ensures !SinUsuario(caller) && EventStore.FindById(st.eventos, eventoId).None? ==> r == Servida(st, EventoNoEncontrado)
    ensures !r.respuesta.Pagina? ==> r.store == st
    ensures r.respuesta.Pagina? <==>
              !SinUsuario(caller)
              && Engine.Reservar(v, st, reloj, Engine.Reserva(eventoId, caller.value.id, cantidad), id, sufijo).Ok?
    ensures r.respuesta.Pagina? ==>
              && r.respuesta.valor.entrada.usuarioId == caller.value.id
              && r.respuesta.valor.entrada.eventoId == eventoId
              && r.respuesta.valor.evento == EventStore.FindById(st.eventos, eventoId).value
              && r.store == st.(entradas := st.entradas + [r.respuesta.valor.entrada])
  {
    if SinUsuario(caller) then Servida(st, NoAutenticado)
    else match EventStore.FindById(st.eventos, eventoId)
      case None => Servida(st, EventoNoEncontrado)
      case Some(evento) =>
        match Engine.Reservar(v, st, reloj, Engine.Reserva(eventoId, caller.value.id, cantidad), id, sufijo)
        case Err(e) => Servida(st, Rechazo(e))
        case Ok(p) => Servida(p.store, Pagina(Confirmacion(p.entrada, evento)))
  }

  /** `procesarPago`: only the owner's payment reaches the engine; once it
      succeeds the event is always found. */
  function ProcesarPago(v: Version, st: Store, reloj: int, caller: Option<Usuario>, id: string): (r: Servida<Detalle>)
    ensures r.store != st ==> TicketStore.FindById(st.entradas, id).Some? && EsDueno(caller, TicketStore.FindById(st.entradas, id).value)
    ensures r.respuesta.EntradaNoEncontrada? <==> TicketStore.FindById(st.entradas, id).None?
    ensures r.respuesta.Pagina? <==>
              && TicketStore.FindById(st.entradas, id).Some?
              && EsDueno(caller, TicketStore.FindById(st.entradas, id).value)
              && Engine.Pagar(v, st, reloj, id).Ok?
    ensures r.respuesta.Pagina? ==>
              && r.store == Engine.Pagar(v, st, reloj, id).value.store
              && r.respuesta.valor.entrada == Engine.Pagar(v, st, reloj, id).value.entrada
              && r.respuesta.valor.precioTotal == Precio(r.respuesta.valor.entrada.cantidadLocalidades)
    ensures !r.respuesta.Pagina? ==> r.store == st
    ensures !r.respuesta.EventoNoEncontrado?
  {
    match TicketStore.FindById(st.entradas, id)
    case None => Servida(st, EntradaNoEncontrada)
    case Some(entrada) =>
      if !EsDueno(caller, entrada) then Servida(st, Prohibido)
      else match Engine.Pagar(v, st, reloj, id)
        case Err(e) => Servida(st, Rechazo(e))
        case Ok(p) =>
          match EventStore.FindById(p.store.eventos, p.entrada.eventoId)
          case None => Servida(p.store, EventoNoEncontrado)
          case Some(evento) => Servida(p.store, Pagina(Detalle(p.entrada, evento, Precio(p.entrada.cantidadLocalidades))))
  }

  /** A listed ticket with the result of looking its event up (`null` when missing). */
  datatype ConEvento = ConEvento(entrada: Entrada, evento: Option<Evento>)

  /** The tickets of a listing, without their events. */
  function Entradas(l: seq<ConEvento>): (r: seq<Entrada>)
    ensures |r| == |l| && forall i :: 0 <= i < |l| ==> r[i] == l[i].entrada
  {
    seq(|l|, i requires 0 <= i < |l| => l[i].entrada)
  }

  /** `{ ...entrada, evento }` for every ticket, in order. */
  function ConSuEvento(eventos: seq<Evento>, ts: seq<Entrada>): (r: seq<ConEvento>)
    ensures Entradas(r) == ts
    ensures forall i :: 0 <= i < |r| ==> r[i].evento == EventStore.FindById(eventos, r[i].entrada.eventoId)
  {
    var r := seq(|ts|, i requires 0 <= i < |ts| => ConEvento(ts[i], EventStore.FindById(eventos, ts[i].eventoId)));
    assert Entradas(r) == ts;
    r
  }

  /** `misEntradas`: exactly the caller's tickets, in store order, each with its event. */
  function MisEntradas(st: Store, caller: Option<Usuario>): (r: Respuesta<seq<ConEvento>>)
    ensures r.NoAutenticado? <==> SinUsuario(caller)
    ensures r.Pagina? || r.NoAutenticado?
    ensures r.Pagina? ==> forall t :: t in Entradas(r.valor) <==> t in st.entradas && EsDueno(caller, t)
    ensures r.Pagina? ==> forall t {:trigger multiset(Entradas(r.valor))[t]} ::
              multiset(Entradas(r.valor))[t] == if EsDueno(caller, t) then multiset(st.entradas)[t] else 0
    ensures r.Pagina? ==> forall i :: 0 <= i < |r.valor| ==>
              r.valor[i].evento == EventStore.FindById(st.eventos, r.valor[i].entrada.eventoId)
  {
    if SinUsuario(caller) then NoAutenticado
    else Pagina(ConSuEvento(st.eventos, TicketStore.FindByUsuarioId(st.entradas, caller.value.id)))
  }

  // ---- admin pages ----

  /** `buscarEntradaValidar`: an administrator looks a ticket up by the part
      of its code after the prefix, within the selected event. */
  function BuscarEntrada(st: Store, caller: Option<Usuario>, eventoId: string, codigoEntrada: string): (r: Respuesta<Detalle>)
    ensures r.Prohibido? <==> !EsAdmin(caller)
    ensures r.EventoNoEncontrado? <==> EsAdmin(caller) && EventStore.FindById(st.eventos, eventoId).None?
    ensures r.EntradaNoEncontrada? <==>
              && EsAdmin(caller)
              && EventStore.FindById(st.eventos, eventoId).Some?
              && TicketStore.FindByCodigo(st.entradas, Engine.CodigoEntrada(codigoEntrada)).None?
    ensures r.Pagina? <==>
              && EsAdmin(caller)
              && EventStore.FindById(st.eventos, eventoId).Some?
              && TicketStore.FindByCodigo(st.entradas, Engine.CodigoEntrada(codigoEntrada)).Some?
              && TicketStore.FindByCodigo(st.entradas, Engine.CodigoEntrada(codigoEntrada)).value.eventoId == eventoId
    ensures r.Pagina? ==>
              var t := r.valor.entrada;
              && EsAdmin(caller)
              && TicketStore.FindByCodigo(st.entradas, Engine.CodigoEntrada(codigoEntrada)) == Some(t)
              && t.eventoId == eventoId
              && EventStore.FindById(st.eventos, eventoId) == Some(r.valor.evento)
              && r.valor.precioTotal == Precio(t.cantidadLocalidades)
    ensures r.NoCorresponde? <==>
              && EsAdmin(caller)
              && EventStore.FindById(st.eventos, eventoId).Some?
              && TicketStore.FindByCodigo(st.entradas, Engine.CodigoEntrada(codigoEntrada)).Some?
              && TicketStore.FindByCodigo(st.entradas, Engine.CodigoEntrada(codigoEntrada)).value.eventoId != eventoId
    ensures r.Pagina? || r.Prohibido? || r.EventoNoEncontrado? || r.EntradaNoEncontrada? || r.NoCorresponde?
  {
    if !EsAdmin(caller) then Prohibido
    else match EventStore.FindById(st.eventos, eventoId)
      case None => EventoNoEncontrado
      case Some(evento) =>
        match TicketStore.FindByCodigo(st.entradas, "ENT-" + codigoEntrada)
        case None => EntradaNoEncontrada
        case Some(entrada) =>
          if entrada.eventoId != eventoId then NoCorresponde
          else Pagina(Detalle(entrada, evento, Precio(entrada.cantidadLocalidades)))
  }

  /** The validation page: only an administrator's request reaches the
      engine; once it succeeds the event is always found. */
  function ValidarVista(v: Version, st: Store, reloj: int, caller: Option<Usuario>, codigo: string): (r: Servida<Detalle>)
    ensures r.store != st ==> EsAdmin(caller)
    ensures r.respuesta.Prohibido? <==> !EsAdmin(caller)
    ensures r.respuesta.Pagina? <==> EsAdmin(caller) && Engine.Validar(v, st, reloj, codigo).Ok?
    ensures r.respuesta.Pagina? ==>
              && r.store == Engine.Validar(v, st, reloj, codigo).value.store
              && r.respuesta.valor.entrada == Engine.Validar(v, st, reloj, codigo).value.entrada
              && r.respuesta.valor.precioTotal == Precio(r.respuesta.valor.entrada.cantidadLocalidades)
    ensures !r.respuesta.Pagina? ==> r.store == st
    ensures !r.respuesta.EventoNoEncontrado?
  {
    if !EsAdmin(caller) then Servida(st, Prohibido)
    else match Engine.Validar(v, st, reloj, codigo)
      case Err(e) => Servida(st, Rechazo(e))
      case Ok(p) =>
        match EventStore.FindById(p.store.eventos, p.entrada.eventoId)
        case None => Servida(p.store, EventoNoEncontrado)
        case Some(evento) => Servida(p.store, Pagina(Detalle(p.entrada, evento, Precio(p.entrada.cantidadLocalidades))))
  }

  /** An administrator who types the suffix of a freshly reserved ticket's
      code, under its event, finds that ticket with its price. */
  lemma BuscarEncuentraReserva(v: Version, st: Store, reloj: int, dto: Engine.Reserva, id: string, sufijo: string, admin: Usuario)
    requires admin.rol.ADMIN?
    requires TicketStore.FindByCodigo(st.entradas, Engine.CodigoEntrada(sufijo)).None?
    requires Engine.Reservar(v, st, reloj, dto, id, sufijo).Ok?
    ensures var p := Engine.Reservar(v, st, reloj, dto, id, sufijo).value;
            BuscarEntrada(p.store, Some(admin), dto.eventoId, sufijo)
            == Pagina(Detalle(p.entrada, EventStore.FindById(st.eventos, dto.eventoId).value,
                              Precio(dto.cantidadLocalidades)))
  {
    var p := Engine.Reservar(v, st, reloj, dto, id, sufijo).value;
    var n := |st.entradas|;
    assert p.store.entradas[n] == p.entrada;
    assert TicketStore.IndexByCodigo(p.store.entradas, Engine.CodigoEntrada(sufijo)) == Some(n);
  }
}
