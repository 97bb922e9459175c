/** The event list store (the function module and its class twin).
    `findAll` is the list itself. */
module EventStore {
  import opened Wrappers
  import opened Domain
  import ListStore

  function Id(e: Evento): string { e.id }

  /** Position of the first event with this id. */
  function IndexById(s: seq<Evento>, id: string): (r: Option<nat>)
    ensures r.Some? ==> r.value < |s| && s[r.value].id == id
                        && forall j :: 0 <= j < r.value ==> s[j].id != id
    ensures r.None? <==> forall j :: 0 <= j < |s| ==> s[j].id != id
  {
    ListStore.IndexOf(s, Id, id)
  }

  /** `findById`: the first event with this id, or none. */
  function FindById(s: seq<Evento>, id: string): (r: Option<Evento>)
    ensures r.None? <==> forall j :: 0 <= j < |s| ==> s[j].id != id
    ensures r.Some? ==> IndexById(s, id).Some? && r.value == s[IndexById(s, id).value]
  {
    ListStore.FindFirst(s, Id, id)
  }

  /** `agregarEvento`: append one event, leaving the others in place. */
  function AgregarEvento(s: seq<Evento>, e: Evento): (r: seq<Evento>)
    ensures |r| == |s| + 1 && r[|s|] == e
    ensures forall j :: 0 <= j < |s| ==> r[j] == s[j]
  {
    ListStore.Append(s, e)
  }

  /** `update`: replace the first event with the same id; `NotFound`, with
      nothing written, when no event has that id. */
  function Update(s: seq<Evento>, e: Evento): (r: Result<seq<Evento>, ListStore.StoreError>)
    ensures r.Err? <==> forall j :: 0 <= j < |s| ==> s[j].id != e.id
    ensures r.Ok? ==> IndexById(s, e.id).Some?
    ensures r.Ok? ==>
              var i := IndexById(s, e.id).value;
              |r.value| == |s| && r.value[i] == e
              && forall j :: 0 <= j < |s| && j != i ==> r.value[j] == s[j]
  {
    ListStore.Update(s, Id, e)
  }
}
