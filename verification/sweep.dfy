/** The reconciliation sweep (`cancelarEntradasVencidas`). Both versions walk
    a snapshot of all tickets and cancel, through `update`, NUEVA tickets
    whose 24-hour reservation has lapsed and NUEVA/ACTIVA tickets whose event
    has started. The module-functions version then walks a snapshot of the
    ACTIVO events and finalizes those that ended two hours ago; the class
    version leaves events alone and reports only the two ticket counters.
    One clock reading serves the whole sweep. */
module Sweep {
  import opened Wrappers
  import opened Domain
  import opened Clock
  import ListStore
  import TicketStore
  import EventStore
  import Engine

  /** How long an unpaid reservation lives. */
  const DIA_MS: int := 24 * HORA_MS

  /** Assumed event length, after which an ACTIVO event is finalized. */
  const DURACION_HORAS: int := 2

  /** Why the sweep cancels a ticket. */
  datatype Motivo = Ninguno | PorReserva | PorEvento

  /** The sweep's decision for one ticket; a ticket whose event is missing is skipped,
      and the reservation rule is tried before the event rule. */
  function MotivoDe(t: Entrada, eventos: seq<Evento>, ahora: int): (m: Motivo)
    ensures !m.Ninguno? ==> EventStore.FindById(eventos, t.eventoId).Some?
    ensures !m.Ninguno? ==> t.estado.NUEVA? || t.estado.ACTIVA?
    ensures m.PorReserva? <==>
              EventStore.FindById(eventos, t.eventoId).Some? && t.estado.NUEVA? && t.fechaReserva + DIA_MS < ahora
    ensures m.PorEvento? <==>
              && EventStore.FindById(eventos, t.eventoId).Some?
              && (t.estado.NUEVA? || t.estado.ACTIVA?)
              && !(t.estado.NUEVA? && t.fechaReserva + DIA_MS < ahora)
              && EventStore.FindById(eventos, t.eventoId).value.fechaHora < ahora
  {
    match EventStore.FindById(eventos, t.eventoId)
    case None => Ninguno
    case Some(ev) =>
      if t.estado.NUEVA? && t.fechaReserva + DIA_MS < ahora then PorReserva
      else if (t.estado.NUEVA? || t.estado.ACTIVA?) && ev.fechaHora < ahora then PorEvento
      else Ninguno
  }

  function Cancelar(t: Entrada, ahora: int): Entrada
  {
    t.(estado := CANCELADA, updatedAt := ahora)
  }

  /** One ticket after the sweep. */
  function Barrida(t: Entrada, eventos: seq<Evento>, ahora: int): Entrada
  {
    if MotivoDe(t, eventos, ahora).Ninguno? then t else Cancelar(t, ahora)
  }

  /** The loop body of the ticket pass, as a step of `ListStore.Apply`. */
  function PasoEntrada(eventos: seq<Evento>, ahora: int): Entrada -> Option<Entrada>
  {
    (t: Entrada) => if MotivoDe(t, eventos, ahora).Ninguno? then None else Some(Cancelar(t, ahora))
  }

  /** How many tickets of the snapshot the sweep cancels for a given reason. */
  function Contar(s: seq<Entrada>, eventos: seq<Evento>, ahora: int, m: Motivo): nat
    decreases |s|
  {
    if |s| == 0 then 0
    else (if MotivoDe(s[0], eventos, ahora) == m then 1 else 0) + Contar(s[1..], eventos, ahora, m)
  }

  function EsActivo(e: Evento): bool { e.estado.ACTIVO? }

  /** The event rule: ACTIVO and its start plus the assumed duration is past. */
  predicate Vencido(e: Evento, ahora: int)
  {
    e.estado.ACTIVO? && e.fechaHora + DURACION_HORAS * HORA_MS < ahora
  }

  function Finalizar(e: Evento, ahora: int): Evento
  {
    e.(estado := FINALIZADO, updatedAt := ahora)
  }

  /** One event after the sweep. */
  function Finalizado(e: Evento, ahora: int): Evento
  {
    if Vencido(e, ahora) then Finalizar(e, ahora) else e
  }

  function PasoEvento(ahora: int): Evento -> Option<Evento>
  {
    (e: Evento) => if Vencido(e, ahora) then Some(Finalizar(e, ahora)) else None
  }

  function ContarVencidos(s: seq<Evento>, ahora: int): nat
    decreases |s|
  {
    if |s| == 0 then 0 else (if Vencido(s[0], ahora) then 1 else 0) + ContarVencidos(s[1..], ahora)
  }

  lemma {:induction false} ContarVencidosConcat(a: seq<Evento>, b: seq<Evento>, ahora: int)
    ensures ContarVencidos(a + b, ahora) == ContarVencidos(a, ahora) + ContarVencidos(b, ahora)
    decreases |a|
  {
    if |a| == 0 {
      assert a + b == b;
    } else {
      assert (a + b)[1..] == a[1..] + b;
      ContarVencidosConcat(a[1..], b, ahora);
    }
  }

  /** Only ACTIVO events are due, so counting over the ACTIVO snapshot the
      loop walks counts every due event of the store. */
  lemma {:induction false} ContarVencidosActivos(s: seq<Evento>, ahora: int)
    ensures ContarVencidos(ListStore.Filter(s, EsActivo), ahora) == ContarVencidos(s, ahora)
    decreases |s|
  {
    if |s| > 0 {
      var init := s[..|s| - 1];
      var last := s[|s| - 1];
      assert s == init + [last];
      assert [last][1..] == [];
      ContarVencidosActivos(init, ahora);
      ContarVencidosConcat(init, [last], ahora);
      ContarVencidosConcat(ListStore.Filter(init, EsActivo), if EsActivo(last) then [last] else [], ahora);
    }
  }

  /** The counters the sweep returns; `eventosFinalizados` only in the version that finalizes. */
  datatype Informe = Informe(porReserva: nat, porEvento: nat, eventosFinalizados: Option<nat>)

  datatype Barrido = Barrido(store: Store, informe: Informe)

  /** Neither loop of the sweep can fail: every snapshot record is still in
      the store, under the same id, when its update comes. */
  lemma BarridoNoFalla(st: Store, ahora: int)
    ensures ListStore.Apply(st.entradas, st.entradas, TicketStore.Id, PasoEntrada(st.eventos, ahora)).Ok?
    ensures ListStore.Apply(ListStore.Filter(st.eventos, EsActivo), st.eventos, EventStore.Id, PasoEvento(ahora)).Ok?
  {
    var pe := PasoEntrada(st.eventos, ahora);
    assert forall x :: pe(x).Some? ==> TicketStore.Id(pe(x).value) == TicketStore.Id(x);
    forall x | x in st.entradas
      ensures exists i :: 0 <= i < |st.entradas| && TicketStore.Id(st.entradas[i]) == TicketStore.Id(x)
    {
      var i :| 0 <= i < |st.entradas| && st.entradas[i] == x;
    }
    ListStore.ApplyOk(st.entradas, st.entradas, TicketStore.Id, pe);
    var pv := PasoEvento(ahora);
    var activos := ListStore.Filter(st.eventos, EsActivo);
    assert forall x :: pv(x).Some? ==> EventStore.Id(pv(x).value) == EventStore.Id(x);
    forall x | x in activos
      ensures exists i :: 0 <= i < |st.eventos| && EventStore.Id(st.eventos[i]) == EventStore.Id(x)
    {
      var i :| 0 <= i < |st.eventos| && st.eventos[i] == x;
    }
    ListStore.ApplyOk(activos, st.eventos, EventStore.Id, pv);
  }

  /** `cancelarEntradasVencidas` of either version. Each counter counts the
      records its loop rewrote; a failed update would abort the whole sweep. */
  function Barrer(v: Version, st: Store, reloj: int): (r: Result<Barrido, Engine.Error>)
    ensures r.Ok?
    ensures r.Ok? ==> r.value.store.usuarios == st.usuarios && |r.value.store.entradas| == |st.entradas|
    ensures r.Ok? && v.ServiceClass? ==> r.value.store.eventos == st.eventos && r.value.informe.eventosFinalizados.None?
    ensures r.Ok? && v.ModuleFunctions? ==> r.value.informe.eventosFinalizados == Some(ContarVencidos(st.eventos, Ahora(v, reloj)))
    ensures r.Ok? ==> r.value.informe.porReserva == Contar(st.entradas, st.eventos, Ahora(v, reloj), PorReserva)
    ensures r.Ok? ==> r.value.informe.porEvento == Contar(st.entradas, st.eventos, Ahora(v, reloj), PorEvento)
  {
    var ahora := Ahora(v, reloj);
    BarridoNoFalla(st, ahora);
    match ListStore.Apply(st.entradas, st.entradas, TicketStore.Id, PasoEntrada(st.eventos, ahora))
    case Err(e) => Err(Engine.Persistencia(e))
    case Ok(entradas) =>
      var porReserva := Contar(st.entradas, st.eventos, ahora, PorReserva);
      var porEvento := Contar(st.entradas, st.eventos, ahora, PorEvento);
      if v.ServiceClass? then
        Ok(Barrido(st.(entradas := entradas), Informe(porReserva, porEvento, None)))
      else
        var activos := ListStore.Filter(st.eventos, EsActivo);
        match ListStore.Apply(activos, st.eventos, EventStore.Id, PasoEvento(ahora))
        case Err(e) => Err(Engine.Persistencia(e))
        case Ok(eventos) =>
          ContarVencidosActivos(st.eventos, ahora);
          Ok(Barrido(Store(eventos, st.usuarios, entradas),
                     Informe(porReserva, porEvento, Some(ContarVencidos(activos, ahora)))))
  }
}

/** What the sweep does, stated record by record, and what follows from it. */
module SweepFacts {
  import opened Wrappers
  import opened Domain
  import opened Clock
  import ListStore
  import TicketStore
  import EventStore
  import opened Sweep

  /** With unique ids, the snapshot-and-update loops amount to rewriting every
      ticket and event in place by the per-record rules. */
  lemma BarrerPuntual(v: Version, st: Store, reloj: int)
    requires ListStore.UniqueKeys(st.entradas, TicketStore.Id)
    requires ListStore.UniqueKeys(st.eventos, EventStore.Id)
    ensures var r := Barrer(v, st, reloj).value;
            var ahora := Ahora(v, reloj);
            && |r.store.entradas| == |st.entradas|
            && (forall i :: 0 <= i < |st.entradas| ==> r.store.entradas[i] == Barrida(st.entradas[i], st.eventos, ahora))
            && |r.store.eventos| == |st.eventos|
            && (forall i :: 0 <= i < |st.eventos| ==>
                  r.store.eventos[i] == if v.ModuleFunctions? then Finalizado(st.eventos[i], ahora) else st.eventos[i])
  {
    var ahora := Ahora(v, reloj);
    var r := Barrer(v, st, reloj).value;
    var entradas := BarridoEntradas(st.entradas, st.eventos, ahora);
    assert r.store.entradas == entradas;
    if v.ModuleFunctions? {
      var eventos := BarridoEventos(st.eventos, ahora);
      assert r.store.eventos == eventos;
    }
  }

  /** The ticket pass alone: each ticket is replaced in place by its own sweep result. */
  lemma BarridoEntradas(entradas: seq<Entrada>, eventos: seq<Evento>, ahora: int) returns (r: seq<Entrada>)
    requires ListStore.UniqueKeys(entradas, TicketStore.Id)
    ensures ListStore.Apply(entradas, entradas, TicketStore.Id, PasoEntrada(eventos, ahora)) == Ok(r)
    ensures |r| == |entradas|
    ensures forall i :: 0 <= i < |entradas| ==> r[i] == Barrida(entradas[i], eventos, ahora)
  {
    var pe := PasoEntrada(eventos, ahora);
    assert forall x :: pe(x).Some? ==> TicketStore.Id(pe(x).value) == TicketStore.Id(x);
    assert forall x :: ListStore.Effect(pe, x) == Barrida(x, eventos, ahora);
    ListStore.ApplyIsPointwise(entradas, [], entradas, entradas, TicketStore.Id, pe);
    assert forall i :: 0 <= i < |entradas| ==> entradas[i] in [] + entradas;
    r := ListStore.Apply(entradas, entradas, TicketStore.Id, pe).value;
  }

  /** The event pass alone: each event is replaced in place by its finalized form. */
  lemma BarridoEventos(eventos: seq<Evento>, ahora: int) returns (r: seq<Evento>)
    requires ListStore.UniqueKeys(eventos, EventStore.Id)
    ensures ListStore.Apply(ListStore.Filter(eventos, EsActivo), eventos, EventStore.Id, PasoEvento(ahora)) == Ok(r)
    ensures |r| == |eventos|
    ensures forall i :: 0 <= i < |eventos| ==> r[i] == Finalizado(eventos[i], ahora)
  {
    var pv := PasoEvento(ahora);
    var activos := ListStore.Filter(eventos, EsActivo);
    assert forall x :: pv(x).Some? ==> EventStore.Id(pv(x).value) == EventStore.Id(x);
    assert forall x :: ListStore.Effect(pv, x) == Finalizado(x, ahora);
    ListStore.ApplyIsPointwise(eventos, [], activos, eventos, EventStore.Id, pv);
    assert forall i :: 0 <= i < |eventos| && eventos[i] !in [] + activos ==> !eventos[i].estado.ACTIVO?;
    r := ListStore.Apply(activos, eventos, EventStore.Id, pv).value;
  }

  /** How many positions hold an event that is FINALIZADO in `b` and was not in `a`. */
  function Finalizados(a: seq<Evento>, b: seq<Evento>): nat
    requires |a| == |b|
    decreases |a|
  {
    if |a| == 0 then 0
    else (if !a[0].estado.FINALIZADO? && b[0].estado.FINALIZADO? then 1 else 0) + Finalizados(a[1..], b[1..])
  }

  /** Rewriting every event by the event rule finalizes exactly the due ones. */
  lemma {:induction false} VencidosSonFinalizados(a: seq<Evento>, b: seq<Evento>, ahora: int)
    requires |a| == |b|
    requires forall i :: 0 <= i < |a| ==> b[i] == Finalizado(a[i], ahora)
    ensures ContarVencidos(a, ahora) == Finalizados(a, b)
    decreases |a|
  {
    if |a| > 0 {
      assert forall i :: 0 <= i < |a| - 1 ==> b[1..][i] == b[i + 1] && a[1..][i] == a[i + 1];
      VencidosSonFinalizados(a[1..], b[1..], ahora);
    }
  }

  /** The module sweep's `eventosFinalizados` is the number of events it
      moved to FINALIZADO. */
  lemma BarrerCuentaFinalizados(st: Store, reloj: int)
    requires ListStore.UniqueKeys(st.entradas, TicketStore.Id)
    requires ListStore.UniqueKeys(st.eventos, EventStore.Id)
    ensures var r := Barrer(ModuleFunctions, st, reloj).value;
            r.informe.eventosFinalizados == Some(Finalizados(st.eventos, r.store.eventos))
  {
    BarrerPuntual(ModuleFunctions, st, reloj);
    var r := Barrer(ModuleFunctions, st, reloj).value;
    VencidosSonFinalizados(st.eventos, r.store.eventos, Ahora(ModuleFunctions, reloj));
  }

  /** Terminal records stay as they are, and a rewritten record changes only
      its state and update date: tickets from NUEVA/ACTIVA to CANCELADA,
      events from ACTIVO to FINALIZADO. */
  lemma BarrerRespetaTerminales(v: Version, st: Store, reloj: int)
    requires ListStore.UniqueKeys(st.entradas, TicketStore.Id)
    requires ListStore.UniqueKeys(st.eventos, EventStore.Id)
    ensures var r := Barrer(v, st, reloj).value;
            var ahora := Ahora(v, reloj);
            && (forall i :: 0 <= i < |st.entradas| && (st.entradas[i].estado.UTILIZADA? || st.entradas[i].estado.CANCELADA?)
                  ==> r.store.entradas[i] == st.entradas[i])
            && (forall i :: 0 <= i < |st.entradas| ==>
                  r.store.entradas[i] == st.entradas[i]
                  || ((st.entradas[i].estado.NUEVA? || st.entradas[i].estado.ACTIVA?)
                      && r.store.entradas[i] == st.entradas[i].(estado := CANCELADA, updatedAt := ahora)))
            && (forall i :: 0 <= i < |st.eventos| && !st.eventos[i].estado.ACTIVO? ==> r.store.eventos[i] == st.eventos[i])
            && (forall i :: 0 <= i < |st.eventos| ==>
                  r.store.eventos[i] == st.eventos[i]
                  || (v.ModuleFunctions? && st.eventos[i].estado.ACTIVO?
                      && r.store.eventos[i] == st.eventos[i].(estado := FINALIZADO, updatedAt := ahora)))
  {
    BarrerPuntual(v, st, reloj);
  }

  /** Event lookups see the same presence and start time in two event lists
      that agree on ids and start times position by position. */
  lemma {:induction false} FindByIdMismaFecha(a: seq<Evento>, b: seq<Evento>, id: string)
    requires |a| == |b|
    requires forall i :: 0 <= i < |a| ==> b[i].id == a[i].id && b[i].fechaHora == a[i].fechaHora
    ensures EventStore.FindById(b, id).Some? == EventStore.FindById(a, id).Some?
    ensures EventStore.FindById(b, id).Some? ==>
              EventStore.FindById(b, id).value.fechaHora == EventStore.FindById(a, id).value.fechaHora
  {
    var ia := EventStore.IndexById(a, id);
    var ib := EventStore.IndexById(b, id);
    if ia.Some? {
      assert b[ia.value].id == id;
      assert ib.Some?;
      assert a[ib.value].id == id;
      assert ib.value == ia.value;
    }
  }

  lemma {:induction false} ContarCero(s: seq<Entrada>, eventos: seq<Evento>, ahora: int, m: Motivo)
    requires !m.Ninguno?
    requires forall i :: 0 <= i < |s| ==> MotivoDe(s[i], eventos, ahora).Ninguno?
    ensures Contar(s, eventos, ahora, m) == 0
    decreases |s|
  {
    if |s| > 0 {
      ContarCero(s[1..], eventos, ahora, m);
    }
  }

  lemma {:induction false} ContarVencidosCero(s: seq<Evento>, ahora: int)
    requires forall i :: 0 <= i < |s| ==> !Vencido(s[i], ahora)
    ensures ContarVencidos(s, ahora) == 0
    decreases |s|
  {
    if |s| > 0 {
      ContarVencidosCero(s[1..], ahora);
    }
  }

  /** A swept ticket list has nothing left to cancel against an event list
      that keeps every event's id and start time. */
  lemma EntradasEstables(e0: seq<Entrada>, e1: seq<Entrada>, v0: seq<Evento>, v1: seq<Evento>, ahora: int)
    requires |e1| == |e0| && forall i :: 0 <= i < |e0| ==> e1[i] == Barrida(e0[i], v0, ahora)
    requires |v1| == |v0| && forall i :: 0 <= i < |v0| ==> v1[i].id == v0[i].id && v1[i].fechaHora == v0[i].fechaHora
    ensures forall i :: 0 <= i < |e1| ==> MotivoDe(e1[i], v1, ahora).Ninguno?
  {
    forall i | 0 <= i < |e1|
      ensures MotivoDe(e1[i], v1, ahora).Ninguno?
    {
      FindByIdMismaFecha(v0, v1, e0[i].eventoId);
      assert MotivoDe(e0[i], v1, ahora) == MotivoDe(e0[i], v0, ahora);
    }
  }

  /** Rewriting records in place keeps ids unique when it keeps each id. */
  lemma IdsSiguenUnicas<T>(a: seq<T>, b: seq<T>, key: T -> string)
    requires ListStore.UniqueKeys(a, key)
    requires |b| == |a| && forall i :: 0 <= i < |a| ==> key(b[i]) == key(a[i])
    ensures ListStore.UniqueKeys(b, key)
  {
  }

  /** After one sweep ids are still unique, no ticket has a reason to be
      cancelled and no event is due to be finalized. */
  lemma TrasBarrido(v: Version, st: Store, reloj: int)
    requires ListStore.UniqueKeys(st.entradas, TicketStore.Id)
    requires ListStore.UniqueKeys(st.eventos, EventStore.Id)
    ensures var s1 := Barrer(v, st, reloj).value.store;
            var ahora := Ahora(v, reloj);
            && ListStore.UniqueKeys(s1.entradas, TicketStore.Id)
            && ListStore.UniqueKeys(s1.eventos, EventStore.Id)
            && (forall i :: 0 <= i < |s1.entradas| ==> MotivoDe(s1.entradas[i], s1.eventos, ahora).Ninguno?)
            && (v.ModuleFunctions? ==> forall i :: 0 <= i < |s1.eventos| ==> !Vencido(s1.eventos[i], ahora))
  {
    var ahora := Ahora(v, reloj);
    var s1 := Barrer(v, st, reloj).value.store;
    BarrerPuntual(v, st, reloj);
    assert forall i :: 0 <= i < |st.eventos| ==>
             s1.eventos[i].id == st.eventos[i].id && s1.eventos[i].fechaHora == st.eventos[i].fechaHora;
    assert forall i :: 0 <= i < |st.entradas| ==> s1.entradas[i].id == st.entradas[i].id;
    IdsSiguenUnicas(st.entradas, s1.entradas, TicketStore.Id);
    IdsSiguenUnicas(st.eventos, s1.eventos, EventStore.Id);
    EntradasEstables(st.entradas, s1.entradas, st.eventos, s1.eventos, ahora);
  }

  /** Running the sweep again with the same clock reading changes nothing and
      reports zero for every counter. */
  lemma BarrerIdempotente(v: Version, st: Store, reloj: int)
    requires ListStore.UniqueKeys(st.entradas, TicketStore.Id)
    requires ListStore.UniqueKeys(st.eventos, EventStore.Id)
    ensures var s1 := Barrer(v, st, reloj).value.store;
            var r2 := Barrer(v, s1, reloj).value;
            && r2.store == s1
            && r2.informe.porReserva == 0 && r2.informe.porEvento == 0
            && (v.ModuleFunctions? ==> r2.informe.eventosFinalizados == Some(0))
  {
    var ahora := Ahora(v, reloj);
    var s1 := Barrer(v, st, reloj).value.store;
    TrasBarrido(v, st, reloj);
    BarrerPuntual(v, s1, reloj);
    var r2 := Barrer(v, s1, reloj).value;
    assert r2.store.entradas == s1.entradas;
    assert r2.store.eventos == s1.eventos;
    ContarCero(s1.entradas, s1.eventos, ahora, PorReserva);
    ContarCero(s1.entradas, s1.eventos, ahora, PorEvento);
    if v.ModuleFunctions? {
      var activos := ListStore.Filter(s1.eventos, EsActivo);
      assert forall i :: 0 <= i < |activos| ==> activos[i] in s1.eventos;
      ContarVencidosCero(activos, ahora);
    }
  }
}
