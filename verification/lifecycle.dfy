/** What the engine keeps true across its operations: no event is sold
    beyond its capacity, ids stay unique, terminal tickets and events stay
    put, and a ticket moves NUEVA -> ACTIVA -> UTILIZADA with its dates in
    order. */
module Lifecycle {
  import opened Wrappers
  import opened Domain
  import opened Clock
  import ListStore
  import TicketStore
  import EventStore
  import Occupancy
  import Engine
  import Sweep
  import SweepFacts
  import EventService
  import UserService

  // ---- the invariant ----

  ghost predicate CantidadesPositivas(entradas: seq<Entrada>)
  {
    forall i :: 0 <= i < |entradas| ==> entradas[i].cantidadLocalidades > 0
  }

  /** Every ticket names an event that is in the store. */
  ghost predicate EventosReferidos(st: Store)
  {
    forall i :: 0 <= i < |st.entradas| ==> EventStore.FindById(st.eventos, st.entradas[i].eventoId).Some?
  }

  /** No event has more places taken than its capacity, counting the NUEVA
      and ACTIVA tickets (`CupoSegunMotor` shows this is the engine's count). */
  ghost predicate CupoRespetado(st: Store)
  {
    forall i :: 0 <= i < |st.eventos| ==>
      Occupancy.SumaDe(st.entradas, st.eventos[i].id, Occupancy.Vigente) <= st.eventos[i].cupoTotal
  }

  /** The capacity clause, stated with the engine's own occupancy computation. */
  lemma CupoSegunMotor(st: Store)
    ensures CupoRespetado(st) <==>
              forall i :: 0 <= i < |st.eventos| ==> Occupancy.Ocupadas(st.entradas, st.eventos[i].id) <= st.eventos[i].cupoTotal
  {
    forall i | 0 <= i < |st.eventos| {
      Occupancy.OcupadasEsSumaDeVigentes(st.entradas, st.eventos[i].id);
    }
  }

  ghost predicate Valid(st: Store)
  {
    && ListStore.UniqueKeys(st.entradas, TicketStore.Id)
    && ListStore.UniqueKeys(st.eventos, EventStore.Id)
    && CantidadesPositivas(st.entradas)
    && EventosReferidos(st)
    && CupoRespetado(st)
    && UserService.EmailsActivosUnicos(st.usuarios)
  }

  // ---- occupancy, operation by operation ----

  /** A reservation adds its quantity to its event's count and nothing to
      any other event's, and never takes the event past its capacity. */
  lemma ReservarOcupacion(v: Version, st: Store, reloj: int, dto: Engine.Reserva, id: string, sufijo: string, eventoId: string)
    requires Engine.Reservar(v, st, reloj, dto, id, sufijo).Ok?
    ensures var s1 := Engine.Reservar(v, st, reloj, dto, id, sufijo).value.store;
            Occupancy.Ocupadas(s1.entradas, eventoId)
            == Occupancy.Ocupadas(st.entradas, eventoId) + (if eventoId == dto.eventoId then dto.cantidadLocalidades else 0)
    ensures var s1 := Engine.Reservar(v, st, reloj, dto, id, sufijo).value.store;
            Occupancy.Ocupadas(s1.entradas, dto.eventoId) <= EventStore.FindById(st.eventos, dto.eventoId).value.cupoTotal
  {
    var p := Engine.Reservar(v, st, reloj, dto, id, sufijo).value;
    assert p.store.entradas == st.entradas + [p.entrada];
    Occupancy.OcupadasAgregar(st.entradas, p.entrada, eventoId);
    Occupancy.OcupadasAgregar(st.entradas, p.entrada, dto.eventoId);
  }

  /** Paying moves a ticket between two counted states: no event's count changes. */
  lemma PagarConservaOcupacion(v: Version, st: Store, reloj: int, id: string, eventoId: string)
    requires Engine.Pagar(v, st, reloj, id).Ok?
    ensures Occupancy.Ocupadas(Engine.Pagar(v, st, reloj, id).value.store.entradas, eventoId)
            == Occupancy.Ocupadas(st.entradas, eventoId)
  {
    var p := Engine.Pagar(v, st, reloj, id).value;
    var i := TicketStore.IndexById(st.entradas, id).value;
    assert p.store.entradas == st.entradas[i := p.entrada];
    Occupancy.OcupadasReemplazo(st.entradas, i, p.entrada, eventoId);
  }

  /** The ticket the first record with a given id is, when ids are unique. */
  lemma UnicoPorId(s: seq<Entrada>, k: nat)
    requires ListStore.UniqueKeys(s, TicketStore.Id)
    requires k < |s|
    ensures TicketStore.IndexById(s, s[k].id) == Some(k)
  {
    var i := TicketStore.IndexById(s, s[k].id).value;
    assert TicketStore.Id(s[i]) == TicketStore.Id(s[k]);
  }

  /** Validating releases the ticket's places from the engine's count: once
      used, a ticket no longer blocks reservations. Other events are untouched. */
  lemma ValidarLiberaCupo(v: Version, st: Store, reloj: int, codigo: string, eventoId: string)
    requires ListStore.UniqueKeys(st.entradas, TicketStore.Id)
    requires Engine.Validar(v, st, reloj, codigo).Ok?
    ensures var t := TicketStore.FindByCodigo(st.entradas, codigo).value;
            Occupancy.Ocupadas(Engine.Validar(v, st, reloj, codigo).value.store.entradas, eventoId)
            == Occupancy.Ocupadas(st.entradas, eventoId) - (if eventoId == t.eventoId then t.cantidadLocalidades else 0)
  {
    var p := Engine.Validar(v, st, reloj, codigo).value;
    var t := TicketStore.FindByCodigo(st.entradas, codigo).value;
    var k := TicketStore.IndexByCodigo(st.entradas, codigo).value;
    UnicoPorId(st.entradas, k);
    assert st.entradas[k] == t;
    assert p.store.entradas == st.entradas[k := p.entrada];
    Occupancy.OcupadasTrasRetirar(st.entradas, k, p.entrada, eventoId);
  }

  /** The sweep only cancels, so no event's count grows. */
  lemma BarrerNoAumentaOcupacion(v: Version, st: Store, reloj: int, eventoId: string)
    requires ListStore.UniqueKeys(st.entradas, TicketStore.Id)
    requires ListStore.UniqueKeys(st.eventos, EventStore.Id)
    requires CantidadesPositivas(st.entradas)
    ensures Occupancy.Ocupadas(Sweep.Barrer(v, st, reloj).value.store.entradas, eventoId)
            <= Occupancy.Ocupadas(st.entradas, eventoId)
  {
    var s1 := Sweep.Barrer(v, st, reloj).value.store;
    SweepFacts.BarrerRespetaTerminales(v, st, reloj);
    assert |s1.entradas| == |st.entradas|;
    forall i | 0 <= i < |st.entradas|
      ensures Occupancy.Aporte(s1.entradas[i], eventoId, Occupancy.Vigente)
              <= Occupancy.Aporte(st.entradas[i], eventoId, Occupancy.Vigente)
    {
      assert st.entradas[i].cantidadLocalidades > 0;
    }
    Occupancy.OcupadasMonotone(s1.entradas, st.entradas, eventoId);
  }

  // ---- the invariant, operation by operation ----

  lemma CupoAgregar(st: Store, t: Entrada)
    requires CupoRespetado(st)
    requires ListStore.UniqueKeys(st.eventos, EventStore.Id)
    requires EventStore.FindById(st.eventos, t.eventoId).Some?
    requires Occupancy.SumaDe(st.entradas, t.eventoId, Occupancy.Vigente) + t.cantidadLocalidades
             <= EventStore.FindById(st.eventos, t.eventoId).value.cupoTotal
    ensures CupoRespetado(st.(entradas := st.entradas + [t]))
  {
    forall i | 0 <= i < |st.eventos|
      ensures Occupancy.SumaDe(st.entradas + [t], st.eventos[i].id, Occupancy.Vigente) <= st.eventos[i].cupoTotal
    {
      Occupancy.SumaDeAppend(st.entradas, t, st.eventos[i].id, Occupancy.Vigente);
      if st.eventos[i].id == t.eventoId {
        var k := EventStore.IndexById(st.eventos, t.eventoId).value;
        assert EventStore.Id(st.eventos[k]) == EventStore.Id(st.eventos[i]);
      }
    }
  }

  lemma CupoReemplazo(st: Store, k: nat, t: Entrada)
    requires CupoRespetado(st)
    requires k < |st.entradas|
    requires t.eventoId == st.entradas[k].eventoId && t.cantidadLocalidades == st.entradas[k].cantidadLocalidades
    requires Occupancy.Vigente(t.estado) ==> Occupancy.Vigente(st.entradas[k].estado)
    requires st.entradas[k].cantidadLocalidades > 0
    ensures CupoRespetado(st.(entradas := st.entradas[k := t]))
  {
    forall i | 0 <= i < |st.eventos|
      ensures Occupancy.SumaDe(st.entradas[k := t], st.eventos[i].id, Occupancy.Vigente) <= st.eventos[i].cupoTotal
    {
      Occupancy.SumaDeUpdate(st.entradas, k, t, st.eventos[i].id, Occupancy.Vigente);
    }
  }

  /** Appending a ticket whose event is in the store keeps every ticket's
      event reachable. */
  lemma ReferidosAgregarEntrada(st: Store, t: Entrada)
    requires EventosReferidos(st)
    requires EventStore.FindById(st.eventos, t.eventoId).Some?
    ensures EventosReferidos(st.(entradas := st.entradas + [t]))
  {
    var s1 := st.(entradas := st.entradas + [t]);
    assert forall i :: 0 <= i < |st.entradas| ==> s1.entradas[i] == st.entradas[i];
  }

  /** Appending a ticket with a fresh id, a positive quantity, an existing
      event and room at that event keeps the store valid. */
  lemma AgregarEntradaPreserva(st: Store, t: Entrada)
    requires Valid(st)
    requires TicketStore.FindById(st.entradas, t.id).None?
    requires t.cantidadLocalidades > 0
    requires EventStore.FindById(st.eventos, t.eventoId).Some?
    requires Occupancy.SumaDe(st.entradas, t.eventoId, Occupancy.Vigente) + t.cantidadLocalidades
             <= EventStore.FindById(st.eventos, t.eventoId).value.cupoTotal
    ensures Valid(st.(entradas := st.entradas + [t]))
  {
    var s1 := st.(entradas := st.entradas + [t]);
    ListStore.AppendKeepsUnique(st.entradas, t, TicketStore.Id);
    assert CantidadesPositivas(s1.entradas);
    ReferidosAgregarEntrada(st, t);
    CupoAgregar(st, t);
  }

  /** Rewriting one ticket in place, keeping its id, event and quantity and
      not moving it into a counted state, keeps the store valid. */
  lemma ReemplazarEntradaPreserva(st: Store, k: nat, t: Entrada)
    requires Valid(st)
    requires k < |st.entradas|
    requires t.id == st.entradas[k].id && t.eventoId == st.entradas[k].eventoId
    requires t.cantidadLocalidades == st.entradas[k].cantidadLocalidades
    requires Occupancy.Vigente(t.estado) ==> Occupancy.Vigente(st.entradas[k].estado)
    ensures Valid(st.(entradas := st.entradas[k := t]))
  {
    SweepFacts.IdsSiguenUnicas(st.entradas, st.entradas[k := t], TicketStore.Id);
    CupoReemplazo(st, k, t);
  }

  /** A successful reservation with a fresh id keeps the store valid. */
  lemma ReservarPreserva(v: Version, st: Store, reloj: int, dto: Engine.Reserva, id: string, sufijo: string)
    requires Valid(st)
    requires TicketStore.FindById(st.entradas, id).None?
    requires Engine.Reservar(v, st, reloj, dto, id, sufijo).Ok?
    ensures Valid(Engine.Reservar(v, st, reloj, dto, id, sufijo).value.store)
  {
    var p := Engine.Reservar(v, st, reloj, dto, id, sufijo).value;
    Occupancy.OcupadasEsSumaDeVigentes(st.entradas, dto.eventoId);
    AgregarEntradaPreserva(st, p.entrada);
  }

  /** A successful payment keeps the store valid. */
  lemma PagarPreserva(v: Version, st: Store, reloj: int, id: string)
    requires Valid(st)
    requires Engine.Pagar(v, st, reloj, id).Ok?
    ensures Valid(Engine.Pagar(v, st, reloj, id).value.store)
  {
    var p := Engine.Pagar(v, st, reloj, id).value;
    ReemplazarEntradaPreserva(st, TicketStore.IndexById(st.entradas, id).value, p.entrada);
  }

  /** A successful validation keeps the store valid. */
  lemma ValidarPreserva(v: Version, st: Store, reloj: int, codigo: string)
    requires Valid(st)
    requires Engine.Validar(v, st, reloj, codigo).Ok?
    ensures Valid(Engine.Validar(v, st, reloj, codigo).value.store)
  {
    var p := Engine.Validar(v, st, reloj, codigo).value;
    var k := TicketStore.IndexByCodigo(st.entradas, codigo).value;
    UnicoPorId(st.entradas, k);
    ReemplazarEntradaPreserva(st, k, p.entrada);
  }

  /** Rewriting every ticket and event in place, keeping ids, events, start
      times, capacities and quantities and never moving a ticket into a
      counted state, keeps the store valid. */
  lemma ReescribirPreserva(st: Store, s1: Store)
    requires Valid(st)
    requires s1.usuarios == st.usuarios
    requires |s1.entradas| == |st.entradas|
    requires forall i :: 0 <= i < |st.entradas| ==>
               && s1.entradas[i].id == st.entradas[i].id
               && s1.entradas[i].eventoId == st.entradas[i].eventoId
               && s1.entradas[i].cantidadLocalidades == st.entradas[i].cantidadLocalidades
               && (Occupancy.Vigente(s1.entradas[i].estado) ==> Occupancy.Vigente(st.entradas[i].estado))
    requires |s1.eventos| == |st.eventos|
    requires forall i :: 0 <= i < |st.eventos| ==>
               && s1.eventos[i].id == st.eventos[i].id
               && s1.eventos[i].fechaHora == st.eventos[i].fechaHora
               && s1.eventos[i].cupoTotal == st.eventos[i].cupoTotal
    ensures Valid(s1)
  {
    SweepFacts.IdsSiguenUnicas(st.entradas, s1.entradas, TicketStore.Id);
    SweepFacts.IdsSiguenUnicas(st.eventos, s1.eventos, EventStore.Id);
    forall i | 0 <= i < |s1.entradas|
      ensures EventStore.FindById(s1.eventos, s1.entradas[i].eventoId).Some?
    {
      SweepFacts.FindByIdMismaFecha(st.eventos, s1.eventos, st.entradas[i].eventoId);
    }
    forall i | 0 <= i < |s1.eventos|
      ensures Occupancy.SumaDe(s1.entradas, s1.eventos[i].id, Occupancy.Vigente) <= s1.eventos[i].cupoTotal
    {
      Occupancy.SumaDeMonotone(s1.entradas, st.entradas, st.eventos[i].id, Occupancy.Vigente);
    }
  }

  /** The sweep rewrites records in place and touches only states and
      update dates: ids, events, quantities, start times and capacities stay. */
  lemma BarrerConservaCampos(v: Version, st: Store, reloj: int)
    requires ListStore.UniqueKeys(st.entradas, TicketStore.Id)
    requires ListStore.UniqueKeys(st.eventos, EventStore.Id)
    ensures var s1 := Sweep.Barrer(v, st, reloj).value.store;
            && s1.usuarios == st.usuarios
            && |s1.entradas| == |st.entradas|
            && (forall i :: 0 <= i < |st.entradas| ==>
                  && s1.entradas[i].id == st.entradas[i].id
                  && s1.entradas[i].eventoId == st.entradas[i].eventoId
                  && s1.entradas[i].cantidadLocalidades == st.entradas[i].cantidadLocalidades
                  && (Occupancy.Vigente(s1.entradas[i].estado) ==> Occupancy.Vigente(st.entradas[i].estado)))
            && |s1.eventos| == |st.eventos|
            && (forall i :: 0 <= i < |st.eventos| ==>
                  && s1.eventos[i].id == st.eventos[i].id
                  && s1.eventos[i].fechaHora == st.eventos[i].fechaHora
                  && s1.eventos[i].cupoTotal == st.eventos[i].cupoTotal)
  {
    SweepFacts.BarrerRespetaTerminales(v, st, reloj);
  }

  /** The sweep keeps the store valid. */
  lemma BarrerPreserva(v: Version, st: Store, reloj: int)
    requires Valid(st)
    ensures Valid(Sweep.Barrer(v, st, reloj).value.store)
  {
    BarrerConservaCampos(v, st, reloj);
    ReescribirPreserva(st, Sweep.Barrer(v, st, reloj).value.store);
  }

  /** An event no ticket names has nothing occupied. */
  lemma {:induction false} SinEntradasSinOcupacion(s: seq<Entrada>, eventoId: string)
    requires forall i :: 0 <= i < |s| ==> s[i].eventoId != eventoId
    ensures Occupancy.SumaDe(s, eventoId, Occupancy.Vigente) == 0
    decreases |s|
  {
    if |s| > 0 {
      SinEntradasSinOcupacion(s[..|s| - 1], eventoId);
    }
  }

  /** Appending an event keeps every ticket's event reachable, since
      lookups find the first match. */
  lemma ReferidosAgregarEvento(st: Store, e: Evento)
    requires EventosReferidos(st)
    ensures EventosReferidos(st.(eventos := st.eventos + [e]))
  {
    var ev1 := st.eventos + [e];
    forall i | 0 <= i < |st.entradas|
      ensures EventStore.FindById(ev1, st.entradas[i].eventoId).Some?
    {
      var k := EventStore.IndexById(st.eventos, st.entradas[i].eventoId).value;
      assert ev1[k].id == st.entradas[i].eventoId;
    }
  }

  /** A fresh event has no tickets, so any non-negative capacity holds it. */
  lemma CupoAgregarEvento(st: Store, e: Evento)
    requires EventosReferidos(st)
    requires CupoRespetado(st)
    requires EventStore.FindById(st.eventos, e.id).None?
    requires e.cupoTotal >= 0
    ensures CupoRespetado(st.(eventos := st.eventos + [e]))
  {
    forall i | 0 <= i < |st.entradas|
      ensures st.entradas[i].eventoId != e.id
    {
      var k := EventStore.IndexById(st.eventos, st.entradas[i].eventoId).value;
      assert st.eventos[k].id == st.entradas[i].eventoId;
    }
    SinEntradasSinOcupacion(st.entradas, e.id);
    var ev1 := st.eventos + [e];
    assert forall i :: 0 <= i < |st.eventos| ==> ev1[i] == st.eventos[i];
  }

  /** Creating an event with a fresh id and a non-negative capacity keeps the store valid. */
  lemma CrearEventoPreserva(st: Store, reloj: int, dto: EventService.NuevoEvento, id: string, sufijo: string)
    requires Valid(st)
    requires EventStore.FindById(st.eventos, id).None?
    requires dto.cupoTotal >= 0
    ensures Valid(st.(eventos := EventService.CrearEvento(st.eventos, reloj, dto, id, sufijo).eventos))
  {
    var c := EventService.CrearEvento(st.eventos, reloj, dto, id, sufijo);
    assert c.eventos == st.eventos + [c.evento];
    ListStore.AppendKeepsUnique(st.eventos, c.evento, EventStore.Id);
    ReferidosAgregarEvento(st, c.evento);
    CupoAgregarEvento(st, c.evento);
  }
}
