/** Worked examples on a small store: a ten-place concert and one user. */
module Scenarios {
  import opened Wrappers
  import opened Domain
  import opened Clock
  import Occupancy
  import Engine
  import ListStore
  import Sweep
  import SweepFacts

  const CONCIERTO: Evento := Evento("e1", "EVT-1", "Concierto", 100 * HORA_MS, 10, EventoEstado.ACTIVO, 0, 0)
  const ANA: Usuario := Usuario("u1", "USR-1", "Ana", "Paz", "1990-01-01", "ana@x", NORMAL, UsuarioEstado.ACTIVO, 0, 0)
  const INICIAL: Store := Store([CONCIERTO], [ANA], [])

  /** Four places sell; seven more do not, and the error says six are left. */
  lemma CupoAgotado()
    ensures var r1 := Engine.Reservar(ServiceClass, INICIAL, 10 * HORA_MS, Engine.Reserva("e1", "u1", 4), "t1", "AAA");
            && r1.Ok?
            && Occupancy.Ocupadas(r1.value.store.entradas, "e1") == 4
            && Engine.Reservar(ServiceClass, r1.value.store, 10 * HORA_MS, Engine.Reserva("e1", "u1", 7), "t2", "BBB")
               == Err(Engine.SinLugares(6))
  {
    var r1 := Engine.Reservar(ServiceClass, INICIAL, 10 * HORA_MS, Engine.Reserva("e1", "u1", 4), "t1", "AAA");
    Occupancy.OcupadasEsSumaDeVigentes([], "e1");
    assert r1.Ok?;
    assert r1.value.store.entradas == [] + [r1.value.entrada];
    Occupancy.OcupadasAgregar([], r1.value.entrada, "e1");
    Engine.ReservarPrimerFallo(ServiceClass, r1.value.store, 10 * HORA_MS, Engine.Reserva("e1", "u1", 7), "t2", "BBB");
  }

  /** Inside the five hours before the show the class version refuses a
      reservation that the function version accepts. */
  lemma VentanaSoloEnClase()
    ensures Engine.Reservar(ServiceClass, INICIAL, 96 * HORA_MS, Engine.Reserva("e1", "u1", 1), "t1", "AAA")
            == Err(Engine.ReservaFueraDeVentana)
    ensures Engine.Reservar(ModuleFunctions, INICIAL, 96 * HORA_MS, Engine.Reserva("e1", "u1", 1), "t1", "AAA").Ok?
  {
    Occupancy.OcupadasEsSumaDeVigentes([], "e1");
  }

  /** A reservation left unpaid for 25 hours is cancelled by the sweep and
      counted as lapsed. */
  lemma ReservaCaducada()
    ensures var r1 := Engine.Reservar(ServiceClass, INICIAL, 10 * HORA_MS, Engine.Reserva("e1", "u1", 4), "t1", "AAA");
            && r1.Ok?
            && var b := Sweep.Barrer(ServiceClass, r1.value.store, 35 * HORA_MS).value;
            && b.informe == Sweep.Informe(1, 0, None)
            && b.store.entradas[0].estado.CANCELADA?
  {
    var r1 := Engine.Reservar(ServiceClass, INICIAL, 10 * HORA_MS, Engine.Reserva("e1", "u1", 4), "t1", "AAA");
    Occupancy.OcupadasEsSumaDeVigentes([], "e1");
    assert r1.Ok?;
    var st := r1.value.store;
    assert st.entradas == [r1.value.entrada];
    assert Sweep.MotivoDe(st.entradas[0], st.eventos, 35 * HORA_MS) == Sweep.PorReserva;
    assert st.entradas[1..] == [];
    assert Sweep.Contar(st.entradas, st.eventos, 35 * HORA_MS, Sweep.PorReserva) == 1;
    assert Sweep.Contar(st.entradas, st.eventos, 35 * HORA_MS, Sweep.PorEvento) == 0;
    SweepFacts.BarrerPuntual(ServiceClass, st, 35 * HORA_MS);
  }

  /** The function version finalizes an event that started three hours
      before the helper's shifted now (six hours before the wall reading). */
  lemma EventoFinalizado()
    ensures var b := Sweep.Barrer(ModuleFunctions, INICIAL, 106 * HORA_MS).value;
            && b.store.eventos[0].estado.FINALIZADO?
            && b.informe == Sweep.Informe(0, 0, Some(1))
  {
    var ahora := NewDate(106 * HORA_MS);
    assert Sweep.Vencido(CONCIERTO, ahora);
    assert [CONCIERTO][..0] == [];
    assert ListStore.Filter([CONCIERTO], Sweep.EsActivo) == [CONCIERTO];
    assert [CONCIERTO][1..] == [];
    assert Sweep.ContarVencidos([CONCIERTO], ahora) == 1;
    SweepFacts.BarrerPuntual(ModuleFunctions, INICIAL, 106 * HORA_MS);
  }
}
