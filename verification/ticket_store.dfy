/** The ticket list store (the function module and its class twin). */
module TicketStore {
  import opened Wrappers
  import opened Domain
  import ListStore

  function Id(t: Entrada): string { t.id }
  function Codigo(t: Entrada): string { t.codigo }

  /** Position of the first ticket with this id. */
  function IndexById(s: seq<Entrada>, id: string): (r: Option<nat>)
    ensures r.Some? ==> r.value < |s| && s[r.value].id == id
                        && forall j :: 0 <= j < r.value ==> s[j].id != id
    ensures r.None? <==> forall j :: 0 <= j < |s| ==> s[j].id != id
  {
    ListStore.IndexOf(s, Id, id)
  }

  /** `findById`: the first ticket with this id, or none. */
  function FindById(s: seq<Entrada>, id: string): (r: Option<Entrada>)
    ensures r.None? <==> forall j :: 0 <= j < |s| ==> s[j].id != id
    ensures r.Some? ==> IndexById(s, id).Some? && r.value == s[IndexById(s, id).value]
  {
    ListStore.FindFirst(s, Id, id)
  }

  /** Position of the first ticket with this code. */
  function IndexByCodigo(s: seq<Entrada>, codigo: string): (r: Option<nat>)
    ensures r.Some? ==> r.value < |s| && s[r.value].codigo == codigo
                        && forall j :: 0 <= j < r.value ==> s[j].codigo != codigo
    ensures r.None? <==> forall j :: 0 <= j < |s| ==> s[j].codigo != codigo
  {
    ListStore.IndexOf(s, Codigo, codigo)
  }

  /** `findByCodigo`: the first ticket with this code, or none. */
  function FindByCodigo(s: seq<Entrada>, codigo: string): (r: Option<Entrada>)
    ensures r.None? <==> forall j :: 0 <= j < |s| ==> s[j].codigo != codigo
    ensures r.Some? ==> IndexByCodigo(s, codigo).Some? && r.value == s[IndexByCodigo(s, codigo).value]
  {
    ListStore.FindFirst(s, Codigo, codigo)
  }

  /** `findByEventoId`: exactly the tickets of one event, in store order
      (order is kept because `ListStore.Filter` distributes over `+`). */
  function FindByEventoId(s: seq<Entrada>, eventoId: string): (r: seq<Entrada>)
    ensures forall t :: t in r <==> t in s && t.eventoId == eventoId
    ensures forall t {:trigger multiset(r)[t]} :: multiset(r)[t] == if t.eventoId == eventoId then multiset(s)[t] else 0
  {
    ListStore.Filter(s, (t: Entrada) => t.eventoId == eventoId)
  }

  /** `findByUsuarioId` (function module only): exactly the tickets of one user, in store order. */
  function FindByUsuarioId(s: seq<Entrada>, usuarioId: string): (r: seq<Entrada>)
    ensures forall t :: t in r <==> t in s && t.usuarioId == usuarioId
    ensures forall t {:trigger multiset(r)[t]} :: multiset(r)[t] == if t.usuarioId == usuarioId then multiset(s)[t] else 0
  {
    ListStore.Filter(s, (t: Entrada) => t.usuarioId == usuarioId)
  }

  /** `findByEventoId` keeps store order: the tickets found in `a + b` are
      those found in `a` followed by those found in `b`, and a single ticket
      is found exactly when it belongs to the event. */
  lemma {:induction false} FindByEventoIdConcat(a: seq<Entrada>, b: seq<Entrada>, eventoId: string)
    ensures FindByEventoId(a + b, eventoId) == FindByEventoId(a, eventoId) + FindByEventoId(b, eventoId)
    ensures forall t :: FindByEventoId([t], eventoId) == if t.eventoId == eventoId then [t] else []
  {
    ListStore.FilterConcat(a, b, (t: Entrada) => t.eventoId == eventoId);
  }

  /** `findByUsuarioId` keeps store order in the same way. */
  lemma {:induction false} FindByUsuarioIdConcat(a: seq<Entrada>, b: seq<Entrada>, usuarioId: string)
    ensures FindByUsuarioId(a + b, usuarioId) == FindByUsuarioId(a, usuarioId) + FindByUsuarioId(b, usuarioId)
    ensures forall t :: FindByUsuarioId([t], usuarioId) == if t.usuarioId == usuarioId then [t] else []
  {
    ListStore.FilterConcat(a, b, (t: Entrada) => t.usuarioId == usuarioId);
  }

  /** `save`: append one ticket, leaving the earlier ones in place. */
  function Save(s: seq<Entrada>, t: Entrada): (r: seq<Entrada>)
    ensures |r| == |s| + 1 && r[|s|] == t
    ensures forall j :: 0 <= j < |s| ==> r[j] == s[j]
  {
    ListStore.Append(s, t)
  }

  /** `update`: replace the first ticket with the same id; `NotFound`, with
      nothing written, when no ticket has that id. */
  function Update(s: seq<Entrada>, t: Entrada): (r: Result<seq<Entrada>, ListStore.StoreError>)
    ensures r.Err? <==> forall j :: 0 <= j < |s| ==> s[j].id != t.id
    ensures r.Ok? ==> IndexById(s, t.id).Some?
    ensures r.Ok? ==>
              var i := IndexById(s, t.id).value;
              |r.value| == |s| && r.value[i] == t
              && forall j :: 0 <= j < |s| && j != i ==> r.value[j] == s[j]
  {
    ListStore.Update(s, Id, t)
  }
}
