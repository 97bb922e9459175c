/** The home page's event list: an optional filter by state name, then a sort
    that puts ACTIVO events first and orders each group by start time. */
module Home {
  import opened Wrappers
  import opened Domain
  import ListStore

  /** The sort comparator: negative when `a` goes first, positive when `b` does. */
  function Comparar(a: Evento, b: Evento): (r: int)
    ensures r <= 0 <==> Precede(a, b)
  {
    if a.estado.ACTIVO? && !b.estado.ACTIVO? then -1
    else if !a.estado.ACTIVO? && b.estado.ACTIVO? then 1
    else a.fechaHora - b.fechaHora
  }

  /** The intended order: ACTIVO before the rest, then by start time. */
  predicate Precede(a: Evento, b: Evento)
  {
    (a.estado.ACTIVO? && !b.estado.ACTIVO?)
    || (a.estado.ACTIVO? == b.estado.ACTIVO? && a.fechaHora <= b.fechaHora)
  }

  /** The comparator is consistent: its sign is antisymmetric, it agrees with
      `Precede`, and `Precede` is a total preorder. */
  lemma CompararEsOrden(a: Evento, b: Evento, c: Evento)
    ensures Comparar(a, b) <= 0 <==> Precede(a, b)
    ensures Comparar(a, b) < 0 <==> Comparar(b, a) > 0
    ensures Precede(a, b) || Precede(b, a)
    ensures Precede(a, b) && Precede(b, c) ==> Precede(a, c)
  {
  }

  ghost predicate Ordenada(s: seq<Evento>)
  {
    forall i, j :: 0 <= i < j < |s| ==> Precede(s[i], s[j])
  }

  /** Inserts `e` after every element that does not follow it, so equal
      elements keep their input order. */
  function Insertar(e: Evento, s: seq<Evento>): (r: seq<Evento>)
    ensures |r| == |s| + 1
    ensures multiset(r) == multiset(s) + multiset{e}
    decreases |s|
  {
    if |s| == 0 then [e]
    else if Comparar(s[0], e) <= 0 then
      assert s == [s[0]] + s[1..];
      [s[0]] + Insertar(e, s[1..])
    else [e] + s
  }

  /** Inserting into an ordered list keeps it ordered. */
  lemma {:induction false} InsertarOrdenada(e: Evento, s: seq<Evento>)
    requires Ordenada(s)
    ensures Ordenada(Insertar(e, s))
    decreases |s|
  {
    if |s| > 0 {
      var r := Insertar(e, s);
      if Comparar(s[0], e) <= 0 {
        var resto := Insertar(e, s[1..]);
        assert s == [s[0]] + s[1..];
        InsertarOrdenada(e, s[1..]);
        forall k | 0 <= k < |resto|
          ensures Precede(s[0], resto[k])
        {
          assert resto[k] in multiset(resto);
          if resto[k] != e {
            assert resto[k] in s[1..];
            var j :| 0 <= j < |s[1..]| && s[1..][j] == resto[k];
            assert s[j + 1] == resto[k];
          }
        }
        assert r == [s[0]] + resto;
      } else {
        forall k | 0 <= k < |s|
          ensures Precede(e, s[k])
        {
          CompararEsOrden(e, s[0], s[k]);
        }
        assert r == [e] + s;
      }
    }
  }

  /** `eventos.sort(comparator)`: a stable sort, written as insertion of each
      element, in input order, into the sorted prefix. */
  function OrdenarHome(s: seq<Evento>): (r: seq<Evento>)
    ensures |r| == |s| && multiset(r) == multiset(s)
    ensures Ordenada(r)
    ensures forall i, j :: 0 <= i < j < |r| && r[j].estado.ACTIVO? ==> r[i].estado.ACTIVO?
    ensures forall i, j :: 0 <= i < j < |r| && r[i].estado.ACTIVO? == r[j].estado.ACTIVO? ==> r[i].fechaHora <= r[j].fechaHora
    decreases |s|
  {
    if |s| == 0 then []
    else
      assert s == s[..|s| - 1] + [s[|s| - 1]];
      var previo := OrdenarHome(s[..|s| - 1]);
      InsertarOrdenada(s[|s| - 1], previo);
      Insertar(s[|s| - 1], previo)
  }

  /** The query filter is off when absent, empty or "TODOS". */
  predicate SinFiltro(filtro: Option<string>)
  {
    filtro.None? || filtro.value == "" || filtro.value == "TODOS"
  }

  /** Keeps the events whose stored state name equals the filter, in order. */
  function FiltrarHome(eventos: seq<Evento>, filtro: Option<string>): (r: seq<Evento>)
    ensures SinFiltro(filtro) ==> r == eventos
    ensures !SinFiltro(filtro) ==> forall e :: e in r <==> e in eventos && EventoEstadoNombre(e.estado) == filtro.value
    ensures !SinFiltro(filtro) ==> forall e {:trigger multiset(r)[e]} ::
              multiset(r)[e] == if EventoEstadoNombre(e.estado) == filtro.value then multiset(eventos)[e] else 0
  {
    if SinFiltro(filtro) then eventos
    else ListStore.Filter(eventos, (e: Evento) => EventoEstadoNombre(e.estado) == filtro.value)
  }

  /** The list the home page shows. */
  function ListaHome(eventos: seq<Evento>, filtro: Option<string>): (r: seq<Evento>)
    ensures multiset(r) == multiset(FiltrarHome(eventos, filtro))
    ensures SinFiltro(filtro) ==> multiset(r) == multiset(eventos)
    ensures Ordenada(r)
  {
    OrdenarHome(FiltrarHome(eventos, filtro))
  }
}
