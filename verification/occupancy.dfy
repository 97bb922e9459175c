/** Occupied places of an event: the sum of `cantidadLocalidades` over its
    tickets in the states that count. The engine counts NUEVA and ACTIVA;
    the view layer also counts UTILIZADA. */
module Occupancy {
  import opened Domain
  import ListStore
  import TicketStore

  /** States the engine's admission check counts. */
  predicate Vigente(e: EntradaEstado) { e.NUEVA? || e.ACTIVA? }

  /** States the pages count when they show occupancy. */
  predicate Mostrada(e: EntradaEstado) { e.NUEVA? || e.ACTIVA? || e.UTILIZADA? }

  predicate Utilizada(e: EntradaEstado) { e.UTILIZADA? }

  /** `reduce((sum, e) => sum + e.cantidadLocalidades, 0)`. */
  function SumaCantidades(s: seq<Entrada>): int
    decreases |s|
  {
    if |s| == 0 then 0 else SumaCantidades(s[..|s| - 1]) + s[|s| - 1].cantidadLocalidades
  }

  lemma {:induction false} SumaCantidadesConcat(a: seq<Entrada>, b: seq<Entrada>)
    ensures SumaCantidades(a + b) == SumaCantidades(a) + SumaCantidades(b)
    decreases |b|
  {
    if |b| == 0 {
      assert a + b == a;
    } else {
      assert (a + b)[..|a + b| - 1] == a + b[..|b| - 1];
      SumaCantidadesConcat(a, b[..|b| - 1]);
    }
  }

  /** `calcularLocalidadesOcupadas` of both engine versions: the event's
      tickets, then those NUEVA or ACTIVA, then the sum of their quantities. */
  function Ocupadas(entradas: seq<Entrada>, eventoId: string): int
  {
    SumaCantidades(ListStore.Filter(TicketStore.FindByEventoId(entradas, eventoId),
                                    (t: Entrada) => Vigente(t.estado)))
  }

  /** What one ticket adds to an event's count, for a given set of counted states. */
  function Aporte(t: Entrada, eventoId: string, cuenta: EntradaEstado -> bool): int
  {
    if t.eventoId == eventoId && cuenta(t.estado) then t.cantidadLocalidades else 0
  }

  /** Reference definition: the sum of every ticket's contribution. */
  function SumaDe(s: seq<Entrada>, eventoId: string, cuenta: EntradaEstado -> bool): int
    decreases |s|
  {
    if |s| == 0 then 0 else SumaDe(s[..|s| - 1], eventoId, cuenta) + Aporte(s[|s| - 1], eventoId, cuenta)
  }

  /** Summing a filtered list is summing the contributions of the records the filter keeps. */
  lemma {:induction false} SumaFiltrada(s: seq<Entrada>, p: Entrada -> bool, eventoId: string, cuenta: EntradaEstado -> bool)
    requires forall t :: p(t) == (t.eventoId == eventoId && cuenta(t.estado))
    ensures SumaCantidades(ListStore.Filter(s, p)) == SumaDe(s, eventoId, cuenta)
    decreases |s|
  {
    if |s| > 0 {
      var init := s[..|s| - 1];
      var last := s[|s| - 1];
      SumaFiltrada(init, p, eventoId, cuenta);
      SumaCantidadesConcat(ListStore.Filter(init, p), if p(last) then [last] else []);
    }
  }

  /** The engine's occupancy is the sum of the NUEVA and ACTIVA quantities of
      the event's tickets; UTILIZADA and CANCELADA tickets add nothing. */
  lemma OcupadasEsSumaDeVigentes(entradas: seq<Entrada>, eventoId: string)
    ensures Ocupadas(entradas, eventoId) == SumaDe(entradas, eventoId, Vigente)
  {
    var p := (t: Entrada) => t.eventoId == eventoId;
    var q := (t: Entrada) => Vigente(t.estado);
    var pq := (t: Entrada) => t.eventoId == eventoId && Vigente(t.estado);
    ListStore.FilterFilter(entradas, p, q, pq);
    SumaFiltrada(entradas, pq, eventoId, Vigente);
  }

  lemma SumaDeAppend(s: seq<Entrada>, t: Entrada, eventoId: string, cuenta: EntradaEstado -> bool)
    ensures SumaDe(s + [t], eventoId, cuenta) == SumaDe(s, eventoId, cuenta) + Aporte(t, eventoId, cuenta)
  {
    assert (s + [t])[..|s|] == s;
  }

  /** Appending a ticket adds its contribution to the engine's count. */
  lemma OcupadasAgregar(s: seq<Entrada>, t: Entrada, eventoId: string)
    ensures Ocupadas(s + [t], eventoId) == Ocupadas(s, eventoId) + Aporte(t, eventoId, Vigente)
  {
    OcupadasEsSumaDeVigentes(s, eventoId);
    OcupadasEsSumaDeVigentes(s + [t], eventoId);
    SumaDeAppend(s, t, eventoId, Vigente);
  }

  /** Replacing a ticket in place changes the engine's count by the
      difference of the two contributions. */
  lemma OcupadasReemplazo(s: seq<Entrada>, k: nat, t: Entrada, eventoId: string)
    requires k < |s|
    ensures Ocupadas(s[k := t], eventoId)
            == Ocupadas(s, eventoId) - Aporte(s[k], eventoId, Vigente) + Aporte(t, eventoId, Vigente)
  {
    OcupadasEsSumaDeVigentes(s, eventoId);
    OcupadasEsSumaDeVigentes(s[k := t], eventoId);
    SumaDeUpdate(s, k, t, eventoId, Vigente);
  }

  /** The engine's count is monotone in every ticket's contribution. */
  lemma OcupadasMonotone(a: seq<Entrada>, b: seq<Entrada>, eventoId: string)
    requires |a| == |b|
    requires forall i :: 0 <= i < |a| ==> Aporte(a[i], eventoId, Vigente) <= Aporte(b[i], eventoId, Vigente)
    ensures Ocupadas(a, eventoId) <= Ocupadas(b, eventoId)
  {
    OcupadasEsSumaDeVigentes(a, eventoId);
    OcupadasEsSumaDeVigentes(b, eventoId);
    SumaDeMonotone(a, b, eventoId, Vigente);
  }

  /** Taking one counted ticket out of the counted states, in place, frees
      exactly its places at its own event and nothing elsewhere. */
  lemma OcupadasTrasRetirar(s: seq<Entrada>, k: nat, t: Entrada, eventoId: string)
    requires k < |s|
    requires t.eventoId == s[k].eventoId && t.cantidadLocalidades == s[k].cantidadLocalidades
    requires Vigente(s[k].estado) && !Vigente(t.estado)
    ensures Ocupadas(s[k := t], eventoId)
            == Ocupadas(s, eventoId) - (if eventoId == s[k].eventoId then s[k].cantidadLocalidades else 0)
  {
    OcupadasReemplazo(s, k, t, eventoId);
  }

  /** Replacing one ticket changes the sum by the difference of the two contributions. */
  lemma {:induction false} SumaDeUpdate(s: seq<Entrada>, i: nat, t: Entrada, eventoId: string, cuenta: EntradaEstado -> bool)
    requires i < |s|
    ensures SumaDe(s[i := t], eventoId, cuenta)
            == SumaDe(s, eventoId, cuenta) - Aporte(s[i], eventoId, cuenta) + Aporte(t, eventoId, cuenta)
    decreases |s|
  {
    var n := |s| - 1;
    if i < n {
      assert s[i := t][..n] == s[..n][i := t];
      SumaDeUpdate(s[..n], i, t, eventoId, cuenta);
    } else {
      assert s[i := t][..n] == s[..n];
    }
  }

  /** A pointwise smaller contribution gives a smaller sum. */
  lemma {:induction false} SumaDeMonotone(a: seq<Entrada>, b: seq<Entrada>, eventoId: string, cuenta: EntradaEstado -> bool)
    requires |a| == |b|
    requires forall i :: 0 <= i < |a| ==> Aporte(a[i], eventoId, cuenta) <= Aporte(b[i], eventoId, cuenta)
    ensures SumaDe(a, eventoId, cuenta) <= SumaDe(b, eventoId, cuenta)
    decreases |a|
  {
    if |a| > 0 {
      SumaDeMonotone(a[..|a| - 1], b[..|b| - 1], eventoId, cuenta);
    }
  }

  /** Counting more states splits into the two counts. */
  lemma {:induction false} SumaDeSplit(s: seq<Entrada>, eventoId: string, c: EntradaEstado -> bool,
                                       c1: EntradaEstado -> bool, c2: EntradaEstado -> bool)
    requires forall e :: c(e) == (c1(e) || c2(e)) && !(c1(e) && c2(e))
    ensures SumaDe(s, eventoId, c) == SumaDe(s, eventoId, c1) + SumaDe(s, eventoId, c2)
    decreases |s|
  {
    if |s| > 0 {
      SumaDeSplit(s[..|s| - 1], eventoId, c, c1, c2);
    }
  }

  /** With non-negative quantities every such sum is non-negative. */
  lemma {:induction false} SumaDeNonNegative(s: seq<Entrada>, eventoId: string, cuenta: EntradaEstado -> bool)
    requires forall i :: 0 <= i < |s| ==> s[i].cantidadLocalidades >= 0
    ensures SumaDe(s, eventoId, cuenta) >= 0
    decreases |s|
  {
    if |s| > 0 {
      SumaDeNonNegative(s[..|s| - 1], eventoId, cuenta);
    }
  }
}
