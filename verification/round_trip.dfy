/** One ticket's whole life: reserved, paid, then used at the door. */
module RoundTrip {
  import opened Wrappers
  import opened Domain
  import opened Clock
  import TicketStore
  import EventStore
  import Occupancy
  import Engine

  /** A NUEVA ticket just appended under a fresh id, for an ACTIVO event, is
      paid exactly when the payment-time check passes, and paying it rewrites
      that ticket alone. */
  lemma PagarRecienAgregada(v: Version, st: Store, r2: int, t: Entrada)
    requires TicketStore.FindById(st.entradas, t.id).None?
    requires t.estado.NUEVA?
    requires Engine.EventoActivo(st, t.eventoId)
    ensures var ev := EventStore.FindById(st.eventos, t.eventoId).value;
            var q := Engine.Pagar(v, st.(entradas := st.entradas + [t]), r2, t.id);
            var ahora := Ahora(v, r2);
            && (q.Ok? <==> Engine.PagoEnTiempo(v, ev, ahora))
            && (q.Ok? ==> q.value.entrada == t.(estado := ACTIVA, fechaPago := Some(ahora), updatedAt := ahora))
            && (q.Ok? ==> q.value.store == st.(entradas := st.entradas + [q.value.entrada]))
  {
    var s1 := st.(entradas := st.entradas + [t]);
    var n := |st.entradas|;
    assert s1.entradas[n] == t;
    assert TicketStore.IndexById(s1.entradas, t.id) == Some(n);
    var q := Engine.Pagar(v, s1, r2, t.id);
    if q.Ok? {
      assert (st.entradas + [t])[n := q.value.entrada] == st.entradas + [q.value.entrada];
    }
  }

  /** Right after a reservation with a fresh id, paying that ticket succeeds
      exactly when the payment-time check passes, and it rewrites the new
      ticket alone. */
  lemma ReservarLuegoPagar(v: Version, st: Store, r1: int, r2: int, dto: Engine.Reserva, id: string, sufijo: string)
    requires TicketStore.FindById(st.entradas, id).None?
    requires Engine.Reservar(v, st, r1, dto, id, sufijo).Ok?
    ensures var p1 := Engine.Reservar(v, st, r1, dto, id, sufijo).value;
            var ev := EventStore.FindById(st.eventos, dto.eventoId).value;
            var q := Engine.Pagar(v, p1.store, r2, id);
            var ahora := Ahora(v, r2);
            && (q.Ok? <==> Engine.PagoEnTiempo(v, ev, ahora))
            && (q.Ok? ==> q.value.entrada == p1.entrada.(estado := ACTIVA, fechaPago := Some(ahora), updatedAt := ahora))
            && (q.Ok? ==> q.value.store == st.(entradas := st.entradas + [q.value.entrada]))
  {
    var p1 := Engine.Reservar(v, st, r1, dto, id, sufijo).value;
    assert p1.store == st.(entradas := st.entradas + [p1.entrada]);
    PagarRecienAgregada(v, st, r2, p1.entrada);
  }

  /** A freshly paid ticket whose id and code are new in the rest of the
      store is validated by its code exactly when its event is not
      cancelled and the validation window is open. */
  lemma PagadaLuegoValidar(v: Version, st: Store, r3: int, t: Entrada)
    requires TicketStore.FindById(st.entradas, t.id).None?
    requires TicketStore.FindByCodigo(st.entradas, t.codigo).None?
    requires t.estado.ACTIVA?
    requires EventStore.FindById(st.eventos, t.eventoId).Some?
    ensures var s2 := st.(entradas := st.entradas + [t]);
            var ev := EventStore.FindById(st.eventos, t.eventoId).value;
            var q := Engine.Validar(v, s2, r3, t.codigo);
            var ahora := Ahora(v, r3);
            && (q.Ok? <==> !ev.estado.CANCELADO? && Engine.ValidacionEnVentana(v, ev, ahora))
            && (q.Ok? ==> q.value.entrada == t.(estado := UTILIZADA, fechaUso := Some(ahora), updatedAt := ahora))
            && (q.Ok? ==> q.value.store == st.(entradas := st.entradas + [q.value.entrada]))
  {
    var s2 := st.(entradas := st.entradas + [t]);
    var n := |st.entradas|;
    assert s2.entradas[n] == t;
    assert TicketStore.IndexByCodigo(s2.entradas, t.codigo) == Some(n);
    assert TicketStore.IndexById(s2.entradas, t.id) == Some(n);
    var q := Engine.Validar(v, s2, r3, t.codigo);
    if q.Ok? {
      assert (st.entradas + [t])[n := q.value.entrada] == st.entradas + [q.value.entrada];
    }
  }

  /** A ticket outside the counted states adds nothing to any event's count. */
  lemma NoVigenteNoOcupa(s: seq<Entrada>, t: Entrada, eventoId: string)
    requires !Occupancy.Vigente(t.estado)
    ensures Occupancy.Ocupadas(s + [t], eventoId) == Occupancy.Ocupadas(s, eventoId)
  {
    Occupancy.OcupadasAgregar(s, t, eventoId);
  }

  /** A client's reserve, pay and validate, in that order, each on the store
      the previous step left; the first error stops the sequence. */
  function Ciclo(v: Version, st: Store, r1: int, r2: int, r3: int, dto: Engine.Reserva, id: string, sufijo: string): Result<Engine.Paso, Engine.Error>
  {
    match Engine.Reservar(v, st, r1, dto, id, sufijo)
    case Err(e) => Err(e)
    case Ok(p1) =>
      match Engine.Pagar(v, p1.store, r2, id)
      case Err(e) => Err(e)
      case Ok(p2) => Engine.Validar(v, p2.store, r3, p1.entrada.codigo)
  }

  /** Reserve, pay and validate one ticket at non-decreasing clock readings:
      when the payment and validation windows are open at those readings,
      both steps succeed, the ticket ends UTILIZADA with its reservation,
      payment and use dates in order, and the store gains that one ticket. */
  lemma CicloDeVida(v: Version, st: Store, r1: int, r2: int, r3: int, dto: Engine.Reserva, id: string, sufijo: string)
    requires TicketStore.FindById(st.entradas, id).None?
    requires TicketStore.FindByCodigo(st.entradas, Engine.CodigoEntrada(sufijo)).None?
    requires r1 <= r2 <= r3
    requires Engine.Reservar(v, st, r1, dto, id, sufijo).Ok?
    requires Engine.PagoEnTiempo(v, EventStore.FindById(st.eventos, dto.eventoId).value, Ahora(v, r2))
    requires Engine.ValidacionEnVentana(v, EventStore.FindById(st.eventos, dto.eventoId).value, Ahora(v, r3))
    ensures var r := Ciclo(v, st, r1, r2, r3, dto, id, sufijo);
            && r.Ok?
            && var t := r.value.entrada;
            && t.estado.UTILIZADA?
            && t.id == id && t.codigo == Engine.CodigoEntrada(sufijo)
            && t.eventoId == dto.eventoId && t.usuarioId == dto.usuarioId
            && t.cantidadLocalidades == dto.cantidadLocalidades
            && t.fechaPago.Some? && t.fechaUso.Some?
            && t.fechaReserva <= t.fechaPago.value <= t.fechaUso.value
            && r.value.store == st.(entradas := st.entradas + [t])
  {
    var p1 := Engine.Reservar(v, st, r1, dto, id, sufijo).value;
    ReservarLuegoPagar(v, st, r1, r2, dto, id, sufijo);
    var p2 := Engine.Pagar(v, p1.store, r2, id).value;
    PagadaLuegoValidar(v, st, r3, p2.entrada);
    AhoraMonotone(v, r1, r2);
    AhoraMonotone(v, r2, r3);
  }

  /** After the whole cycle no event's count differs from before the
      reservation: a used ticket holds no places. */
  lemma CicloLiberaCupo(v: Version, st: Store, r1: int, r2: int, r3: int, dto: Engine.Reserva, id: string, sufijo: string, eventoId: string)
    requires TicketStore.FindById(st.entradas, id).None?
    requires TicketStore.FindByCodigo(st.entradas, Engine.CodigoEntrada(sufijo)).None?
    requires r1 <= r2 <= r3
    requires Engine.Reservar(v, st, r1, dto, id, sufijo).Ok?
    requires Engine.PagoEnTiempo(v, EventStore.FindById(st.eventos, dto.eventoId).value, Ahora(v, r2))
    requires Engine.ValidacionEnVentana(v, EventStore.FindById(st.eventos, dto.eventoId).value, Ahora(v, r3))
    ensures Ciclo(v, st, r1, r2, r3, dto, id, sufijo).Ok?
    ensures Occupancy.Ocupadas(Ciclo(v, st, r1, r2, r3, dto, id, sufijo).value.store.entradas, eventoId)
            == Occupancy.Ocupadas(st.entradas, eventoId)
  {
    CicloDeVida(v, st, r1, r2, r3, dto, id, sufijo);
    var r := Ciclo(v, st, r1, r2, r3, dto, id, sufijo).value;
    NoVigenteNoOcupa(st.entradas, r.entrada, eventoId);
  }
}
