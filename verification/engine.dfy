/** The ticket lifecycle engine: reservation, payment and validation, in the
    two versions found in the source. `ModuleFunctions` has the time-window
    checks commented out and reads the shifted clock; `ServiceClass`
    enforces them and reads the wall clock. Each operation maps a store and a
    clock reading to the ticket it wrote and the new store, or to the error it
    throws; an error carries no store, because every rejection happens before
    the single write. */
module Engine {
  import opened Wrappers
  import opened Domain
  import opened Clock
  import ListStore
  import TicketStore
  import EventStore
  import UserStore
  import Occupancy

  /** Hours before an event at which ticket certification starts (`cantidadHorasAntes`). */
  const HORAS_ANTES: int := 5

  /** The engine's errors, one per `throw` of the source, plus a failed store write. */
  datatype Error =
    | EventoNoEncontrado
    | EventoNoActivo
    | ReservaFueraDeVentana
    | UsuarioNoValido
    | CantidadNoPositiva
    | SinLugares(quedan: int)
    | EntradaNoEncontrada
    | SoloNuevaSePaga
    | EventoYaOcurrio
    | SoloActivaSeValida
    | EventoCancelado
    | ValidacionNoHabilitada
    | Persistencia(causa: ListStore.StoreError)

  /** The reservation request. */
  datatype Reserva = Reserva(eventoId: string, usuarioId: string, cantidadLocalidades: int)

  /** The ticket an operation wrote, with the store after the write. */
  datatype Paso = Paso(store: Store, entrada: Entrada)

  /** The ticket code: the fixed prefix and a random suffix supplied by the caller. */
  function CodigoEntrada(sufijo: string): string
  {
    Codigo("ENT-", sufijo)
  }

  /** The instant ticket certification starts for an event. */
  function InicioCertificacion(ev: Evento): int
  {
    ev.fechaHora - HORAS_ANTES * HORA_MS
  }

  /** Reservations are still open: certification has not started. */
  predicate VentanaReserva(ev: Evento, ahora: int)
  {
    !(InicioCertificacion(ev) <= ahora)
  }

  /** Validation is open: certification has started. */
  predicate VentanaValidacion(ev: Evento, ahora: int)
  {
    !(ahora < InicioCertificacion(ev))
  }

  /** At any instant exactly one of the two windows is open. */
  lemma VentanasExclusivas(ev: Evento, ahora: int)
    ensures VentanaReserva(ev, ahora) != VentanaValidacion(ev, ahora)
    ensures VentanaReserva(ev, ahora) <==> ahora < ev.fechaHora - 5 * HORA_MS
  {
  }

  // ---- the named checks, as total predicates over the store ----

  predicate EventoActivo(st: Store, eventoId: string)
  {
    match EventStore.FindById(st.eventos, eventoId)
    case None => false
    case Some(ev) => ev.estado.ACTIVO?
  }

  /** The reservation-window check passes (always, in the version without it). */
  predicate ReservaEnVentana(v: Version, st: Store, eventoId: string, ahora: int)
  {
    match EventStore.FindById(st.eventos, eventoId)
    case None => false
    case Some(ev) => v.ModuleFunctions? || VentanaReserva(ev, ahora)
  }

  predicate UsuarioValido(st: Store, usuarioId: string)
  {
    match UserStore.FindById(st.usuarios, usuarioId)
    case None => false
    case Some(u) => u.estado.ACTIVO?
  }

  /** Places still free at an event by the engine's count: its capacity less
      the places held by its NUEVA and ACTIVA tickets; none at an unknown event. */
  function Disponibles(st: Store, eventoId: string): (r: int)
    ensures EventStore.FindById(st.eventos, eventoId).None? ==> r == 0
    ensures EventStore.FindById(st.eventos, eventoId).Some? ==>
              r == EventStore.FindById(st.eventos, eventoId).value.cupoTotal
                   - Occupancy.SumaDe(st.entradas, eventoId, Occupancy.Vigente)
  {
    match EventStore.FindById(st.eventos, eventoId)
    case None => 0
    case Some(ev) =>
      Occupancy.OcupadasEsSumaDeVigentes(st.entradas, ev.id);
      ev.cupoTotal - Occupancy.Ocupadas(st.entradas, ev.id)
  }

  /** `reservarEntrada`: checks run in a fixed order and the first failing
      one is reported; on success one NUEVA ticket is appended. */
  function Reservar(v: Version, st: Store, reloj: int, dto: Reserva, id: string, sufijo: string): (r: Result<Paso, Error>)
    ensures r.Ok? <==>
              && EventoActivo(st, dto.eventoId)
              && ReservaEnVentana(v, st, dto.eventoId, Ahora(v, reloj))
              && UsuarioValido(st, dto.usuarioId)
              && 0 < dto.cantidadLocalidades <= Disponibles(st, dto.eventoId)
    ensures r.Ok? ==> r.value.store == st.(entradas := st.entradas + [r.value.entrada])
    ensures r.Ok? ==> var ahora := Ahora(v, reloj);
                      r.value.entrada == Entrada(id, CodigoEntrada(sufijo), dto.eventoId, dto.usuarioId,
                                                 dto.cantidadLocalidades, NUEVA, ahora, None, None, ahora, ahora)
  {
    match EventStore.FindById(st.eventos, dto.eventoId)
    case None => Err(EventoNoEncontrado)
    case Some(ev) =>
      if !ev.estado.ACTIVO? then Err(EventoNoActivo)
      else
        var ahora := Ahora(v, reloj);
        if v.ServiceClass? && InicioCertificacion(ev) <= ahora then Err(ReservaFueraDeVentana)
        else match UserStore.FindById(st.usuarios, dto.usuarioId)
          case None => Err(UsuarioNoValido)
          case Some(usuario) =>
            if !usuario.estado.ACTIVO? then Err(UsuarioNoValido)
            else if dto.cantidadLocalidades <= 0 then Err(CantidadNoPositiva)
            else
              var disponibles := ev.cupoTotal - Occupancy.Ocupadas(st.entradas, ev.id);
              if dto.cantidadLocalidades > disponibles then Err(SinLugares(disponibles))
              else
                var entrada := Entrada(id, CodigoEntrada(sufijo), ev.id, usuario.id, dto.cantidadLocalidades,
                                       NUEVA, ahora, None, None, ahora, ahora);
                Ok(Paso(st.(entradas := TicketStore.Save(st.entradas, entrada)), entrada))
  }

  /** The order of `reservarEntrada`'s checks: the first one that fails
      names the error. */
  lemma ReservarPrimerFallo(v: Version, st: Store, reloj: int, dto: Reserva, id: string, sufijo: string)
    ensures EventStore.FindById(st.eventos, dto.eventoId).None? ==> Reservar(v, st, reloj, dto, id, sufijo) == Err(EventoNoEncontrado)
    ensures EventStore.FindById(st.eventos, dto.eventoId).Some? && !EventoActivo(st, dto.eventoId)
            ==> Reservar(v, st, reloj, dto, id, sufijo) == Err(EventoNoActivo)
    ensures EventoActivo(st, dto.eventoId) && !ReservaEnVentana(v, st, dto.eventoId, Ahora(v, reloj))
            ==> Reservar(v, st, reloj, dto, id, sufijo) == Err(ReservaFueraDeVentana)
    ensures EventoActivo(st, dto.eventoId) && ReservaEnVentana(v, st, dto.eventoId, Ahora(v, reloj))
            && !UsuarioValido(st, dto.usuarioId)
            ==> Reservar(v, st, reloj, dto, id, sufijo) == Err(UsuarioNoValido)
    ensures EventoActivo(st, dto.eventoId) && ReservaEnVentana(v, st, dto.eventoId, Ahora(v, reloj))
            && UsuarioValido(st, dto.usuarioId) && dto.cantidadLocalidades <= 0
            ==> Reservar(v, st, reloj, dto, id, sufijo) == Err(CantidadNoPositiva)
    ensures EventoActivo(st, dto.eventoId) && ReservaEnVentana(v, st, dto.eventoId, Ahora(v, reloj))
            && UsuarioValido(st, dto.usuarioId) && 0 < dto.cantidadLocalidades
            && dto.cantidadLocalidades > Disponibles(st, dto.eventoId)
            ==> Reservar(v, st, reloj, dto, id, sufijo) == Err(SinLugares(Disponibles(st, dto.eventoId)))
  {
    if EventStore.FindById(st.eventos, dto.eventoId).None? {
      FalloEvento(v, st, reloj, dto, id, sufijo);
    } else if !EventoActivo(st, dto.eventoId) || !ReservaEnVentana(v, st, dto.eventoId, Ahora(v, reloj)) {
      FalloEstadoOVentana(v, st, reloj, dto, id, sufijo);
    } else {
      FalloUsuarioOCupo(v, st, reloj, dto, id, sufijo);
    }
  }

  // One lemma per rejection, so each one follows a single path through `Reservar`.

  lemma FalloEvento(v: Version, st: Store, reloj: int, dto: Reserva, id: string, sufijo: string)
    requires EventStore.FindById(st.eventos, dto.eventoId).None?
    ensures Reservar(v, st, reloj, dto, id, sufijo) == Err(EventoNoEncontrado)
  {
  }

  lemma FalloEstadoOVentana(v: Version, st: Store, reloj: int, dto: Reserva, id: string, sufijo: string)
    requires EventStore.FindById(st.eventos, dto.eventoId).Some?
    ensures !EventoActivo(st, dto.eventoId) ==> Reservar(v, st, reloj, dto, id, sufijo) == Err(EventoNoActivo)
    ensures EventoActivo(st, dto.eventoId) && !ReservaEnVentana(v, st, dto.eventoId, Ahora(v, reloj))
            ==> Reservar(v, st, reloj, dto, id, sufijo) == Err(ReservaFueraDeVentana)
  {
  }

  lemma FalloUsuarioOCupo(v: Version, st: Store, reloj: int, dto: Reserva, id: string, sufijo: string)
    requires EventoActivo(st, dto.eventoId) && ReservaEnVentana(v, st, dto.eventoId, Ahora(v, reloj))
    ensures !UsuarioValido(st, dto.usuarioId) ==> Reservar(v, st, reloj, dto, id, sufijo) == Err(UsuarioNoValido)
    ensures UsuarioValido(st, dto.usuarioId) && dto.cantidadLocalidades <= 0
            ==> Reservar(v, st, reloj, dto, id, sufijo) == Err(CantidadNoPositiva)
    ensures UsuarioValido(st, dto.usuarioId) && 0 < dto.cantidadLocalidades
            && dto.cantidadLocalidades > Disponibles(st, dto.eventoId)
            ==> Reservar(v, st, reloj, dto, id, sufijo) == Err(SinLugares(Disponibles(st, dto.eventoId)))
  {
    if !UsuarioValido(st, dto.usuarioId) {
      FalloUsuario(v, st, reloj, dto, id, sufijo);
    } else if dto.cantidadLocalidades <= 0 {
      FalloCantidad(v, st, reloj, dto, id, sufijo);
    } else if dto.cantidadLocalidades > Disponibles(st, dto.eventoId) {
      FalloCupo(v, st, reloj, dto, id, sufijo);
    }
  }

  lemma FalloUsuario(v: Version, st: Store, reloj: int, dto: Reserva, id: string, sufijo: string)
    requires EventoActivo(st, dto.eventoId) && ReservaEnVentana(v, st, dto.eventoId, Ahora(v, reloj))
    requires !UsuarioValido(st, dto.usuarioId)
    ensures Reservar(v, st, reloj, dto, id, sufijo) == Err(UsuarioNoValido)
  {
  }

  lemma FalloCantidad(v: Version, st: Store, reloj: int, dto: Reserva, id: string, sufijo: string)
    requires EventoActivo(st, dto.eventoId) && ReservaEnVentana(v, st, dto.eventoId, Ahora(v, reloj))
    requires UsuarioValido(st, dto.usuarioId) && dto.cantidadLocalidades <= 0
    ensures Reservar(v, st, reloj, dto, id, sufijo) == Err(CantidadNoPositiva)
  {
  }

  lemma FalloCupo(v: Version, st: Store, reloj: int, dto: Reserva, id: string, sufijo: string)
    requires EventoActivo(st, dto.eventoId) && ReservaEnVentana(v, st, dto.eventoId, Ahora(v, reloj))
    requires UsuarioValido(st, dto.usuarioId) && 0 < dto.cantidadLocalidades
    requires dto.cantidadLocalidades > Disponibles(st, dto.eventoId)
    ensures Reservar(v, st, reloj, dto, id, sufijo) == Err(SinLugares(Disponibles(st, dto.eventoId)))
  {
    var ev := EventStore.FindById(st.eventos, dto.eventoId).value;
    assert ev.id == dto.eventoId;
  }

  /** The payment-time check passes (always, in the version without it). */
  predicate PagoEnTiempo(v: Version, ev: Evento, ahora: int)
  {
    v.ModuleFunctions? || ahora < ev.fechaHora
  }

  /** `pagarEntrada`: a NUEVA ticket of an ACTIVO event becomes ACTIVA; only
      its state, payment date and update date change. */
  function Pagar(v: Version, st: Store, reloj: int, id: string): (r: Result<Paso, Error>)
    ensures TicketStore.FindById(st.entradas, id).None? ==> r == Err(EntradaNoEncontrada)
    ensures r.Ok? <==>
              && TicketStore.FindById(st.entradas, id).Some?
              && var t := TicketStore.FindById(st.entradas, id).value;
              && t.estado.NUEVA?
              && EventoActivo(st, t.eventoId)
              && PagoEnTiempo(v, EventStore.FindById(st.eventos, t.eventoId).value, Ahora(v, reloj))
    ensures r.Err? ==> !r.error.Persistencia?
    ensures r.Ok? ==>
              var i := TicketStore.IndexById(st.entradas, id).value;
              var ahora := Ahora(v, reloj);
              && st.entradas[i].estado.NUEVA?
              && r.value.entrada == st.entradas[i].(estado := ACTIVA, fechaPago := Some(ahora), updatedAt := ahora)
              && r.value.store == st.(entradas := st.entradas[i := r.value.entrada])
  {
    match TicketStore.FindById(st.entradas, id)
    case None => Err(EntradaNoEncontrada)
    case Some(entrada) =>
      if !entrada.estado.NUEVA? then Err(SoloNuevaSePaga)
      else match EventStore.FindById(st.eventos, entrada.eventoId)
        case None => Err(EventoNoEncontrado)
        case Some(ev) =>
          if !ev.estado.ACTIVO? then Err(EventoNoActivo)
          else
            var ahora := Ahora(v, reloj);
            if v.ServiceClass? && ev.fechaHora <= ahora then Err(EventoYaOcurrio)
            else
              var pagada := entrada.(estado := ACTIVA, fechaPago := Some(ahora), updatedAt := ahora);
              match TicketStore.Update(st.entradas, pagada)
              case Err(e) => Err(Persistencia(e))
              case Ok(entradas) => Ok(Paso(st.(entradas := entradas), pagada))
  }

  /** The order of `pagarEntrada`'s checks once the ticket is found: the
      first one that fails names the error. */
  lemma PagarPrimerFallo(v: Version, st: Store, reloj: int, id: string)
    ensures TicketStore.FindById(st.entradas, id).Some? && !TicketStore.FindById(st.entradas, id).value.estado.NUEVA?
            ==> Pagar(v, st, reloj, id) == Err(SoloNuevaSePaga)
    ensures TicketStore.FindById(st.entradas, id).Some? && TicketStore.FindById(st.entradas, id).value.estado.NUEVA?
            && EventStore.FindById(st.eventos, TicketStore.FindById(st.entradas, id).value.eventoId).None?
            ==> Pagar(v, st, reloj, id) == Err(EventoNoEncontrado)
    ensures TicketStore.FindById(st.entradas, id).Some? && TicketStore.FindById(st.entradas, id).value.estado.NUEVA?
            && EventStore.FindById(st.eventos, TicketStore.FindById(st.entradas, id).value.eventoId).Some?
            && !EventoActivo(st, TicketStore.FindById(st.entradas, id).value.eventoId)
            ==> Pagar(v, st, reloj, id) == Err(EventoNoActivo)
    ensures TicketStore.FindById(st.entradas, id).Some? && TicketStore.FindById(st.entradas, id).value.estado.NUEVA?
            && EventoActivo(st, TicketStore.FindById(st.entradas, id).value.eventoId)
            && !PagoEnTiempo(v, EventStore.FindById(st.eventos, TicketStore.FindById(st.entradas, id).value.eventoId).value, Ahora(v, reloj))
            ==> Pagar(v, st, reloj, id) == Err(EventoYaOcurrio)
  {
  }

  /** The validation-window check passes (always, in the version without it). */
  predicate ValidacionEnVentana(v: Version, ev: Evento, ahora: int)
  {
    v.ModuleFunctions? || VentanaValidacion(ev, ahora)
  }

  /** `validarEntrada` / `validarEntradaPorCodigo`: the ticket found by code,
      if ACTIVA and its event exists and is not CANCELADO (FINALIZADO is
      accepted), becomes UTILIZADA. The write goes through `update`, which
      replaces the first ticket with the found ticket's id. */
  function Validar(v: Version, st: Store, reloj: int, codigo: string): (r: Result<Paso, Error>)
    ensures TicketStore.FindByCodigo(st.entradas, codigo).None? ==> r == Err(EntradaNoEncontrada)
    ensures r.Ok? <==>
              && TicketStore.FindByCodigo(st.entradas, codigo).Some?
              && var t := TicketStore.FindByCodigo(st.entradas, codigo).value;
              && t.estado.ACTIVA?
              && EventStore.FindById(st.eventos, t.eventoId).Some?
              && var ev := EventStore.FindById(st.eventos, t.eventoId).value;
              && !ev.estado.CANCELADO?
              && ValidacionEnVentana(v, ev, Ahora(v, reloj))
    ensures r.Err? ==> !r.error.Persistencia?
    ensures r.Ok? ==>
              var t := TicketStore.FindByCodigo(st.entradas, codigo).value;
              var i := TicketStore.IndexById(st.entradas, t.id).value;
              var ahora := Ahora(v, reloj);
              && r.value.entrada == t.(estado := UTILIZADA, fechaUso := Some(ahora), updatedAt := ahora)
              && r.value.store == st.(entradas := st.entradas[i := r.value.entrada])
  {
    match TicketStore.FindByCodigo(st.entradas, codigo)
    case None => Err(EntradaNoEncontrada)
    case Some(entrada) =>
      if !entrada.estado.ACTIVA? then Err(SoloActivaSeValida)
      else match EventStore.FindById(st.eventos, entrada.eventoId)
        case None => Err(EventoNoEncontrado)
        case Some(ev) =>
          var ahora := Ahora(v, reloj);
          if ev.estado.CANCELADO? then Err(EventoCancelado)
          else if v.ServiceClass? && ahora < InicioCertificacion(ev) then Err(ValidacionNoHabilitada)
          else
            var usada := entrada.(estado := UTILIZADA, fechaUso := Some(ahora), updatedAt := ahora);
            match TicketStore.Update(st.entradas, usada)
            case Err(e) => Err(Persistencia(e))
            case Ok(entradas) => Ok(Paso(st.(entradas := entradas), usada))
  }

  /** The order of `validarEntrada`'s checks once the ticket is found: the
      first one that fails names the error. */
  lemma ValidarPrimerFallo(v: Version, st: Store, reloj: int, codigo: string)
    ensures TicketStore.FindByCodigo(st.entradas, codigo).Some? && !TicketStore.FindByCodigo(st.entradas, codigo).value.estado.ACTIVA?
            ==> Validar(v, st, reloj, codigo) == Err(SoloActivaSeValida)
    ensures TicketStore.FindByCodigo(st.entradas, codigo).Some? && TicketStore.FindByCodigo(st.entradas, codigo).value.estado.ACTIVA?
            && EventStore.FindById(st.eventos, TicketStore.FindByCodigo(st.entradas, codigo).value.eventoId).None?
            ==> Validar(v, st, reloj, codigo) == Err(EventoNoEncontrado)
    ensures TicketStore.FindByCodigo(st.entradas, codigo).Some? && TicketStore.FindByCodigo(st.entradas, codigo).value.estado.ACTIVA?
            && EventStore.FindById(st.eventos, TicketStore.FindByCodigo(st.entradas, codigo).value.eventoId).Some?
            && EventStore.FindById(st.eventos, TicketStore.FindByCodigo(st.entradas, codigo).value.eventoId).value.estado.CANCELADO?
            ==> Validar(v, st, reloj, codigo) == Err(EventoCancelado)
    ensures TicketStore.FindByCodigo(st.entradas, codigo).Some? && TicketStore.FindByCodigo(st.entradas, codigo).value.estado.ACTIVA?
            && EventStore.FindById(st.eventos, TicketStore.FindByCodigo(st.entradas, codigo).value.eventoId).Some?
            && !EventStore.FindById(st.eventos, TicketStore.FindByCodigo(st.entradas, codigo).value.eventoId).value.estado.CANCELADO?
            && !ValidacionEnVentana(v, EventStore.FindById(st.eventos, TicketStore.FindByCodigo(st.entradas, codigo).value.eventoId).value, Ahora(v, reloj))
            ==> Validar(v, st, reloj, codigo) == Err(ValidacionNoHabilitada)
  {
  }
}
