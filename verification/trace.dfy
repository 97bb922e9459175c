/** The system as a state machine: a request is one of the core's write
    operations, applied to the whole store at a clock reading; a rejected
    request leaves the store as it was. Ticket states only move forward,
    terminal records are never touched again, and the invariant of
    `Lifecycle` holds along every run whose generated ids are fresh. */
module Trace {
  import opened Wrappers
  import opened Domain
  import opened Clock
  import ListStore
  import TicketStore
  import EventStore
  import Occupancy
  import Engine
  import Sweep
  import SweepFacts
  import EventService
  import UserService
  import Lifecycle

  datatype Op =
    | Reservar(reserva: Engine.Reserva, id: string, sufijo: string)
    | Pagar(entradaId: string)
    | Validar(codigo: string)
    | Barrer
    | CrearEvento(evento: EventService.NuevoEvento, id: string, sufijo: string)
    | CrearUsuario(usuario: UserService.NuevoUsuario, id: string, sufijo: string)

  /** A request and the wall-clock reading at which it is served. */
  datatype Peticion = Peticion(reloj: int, op: Op)

  /** The store after one request. User creation uses the corrected email check. */
  function Step(v: Version, st: Store, reloj: int, op: Op): Store
  {
    match op
    case Reservar(dto, id, sufijo) =>
      (match Engine.Reservar(v, st, reloj, dto, id, sufijo) case Ok(p) => p.store case Err(_) => st)
    case Pagar(id) =>
      (match Engine.Pagar(v, st, reloj, id) case Ok(p) => p.store case Err(_) => st)
    case Validar(codigo) =>
      (match Engine.Validar(v, st, reloj, codigo) case Ok(p) => p.store case Err(_) => st)
    case Barrer =>
      (match Sweep.Barrer(v, st, reloj) case Ok(b) => b.store case Err(_) => st)
    case CrearEvento(dto, id, sufijo) =>
      st.(eventos := EventService.CrearEvento(st.eventos, reloj, dto, id, sufijo).eventos)
    case CrearUsuario(dto, id, sufijo) =>
      (match UserService.CrearUsuarioSinDuplicar(st.usuarios, reloj, dto, id, sufijo)
       case Ok(c) => st.(usuarios := c.usuarios) case Err(_) => st)
  }

  function Run(v: Version, st: Store, trace: seq<Peticion>): Store
    decreases |trace|
  {
    if |trace| == 0 then st else Run(v, Step(v, st, trace[0].reloj, trace[0].op), trace[1..])
  }

  /** What the source leaves to its random id generator: a new ticket or event
      id is not already in use. A new event's capacity is not negative. */
  predicate Admisible(st: Store, op: Op)
  {
    match op
    case Reservar(_, id, _) => TicketStore.FindById(st.entradas, id).None?
    case CrearEvento(dto, id, _) => EventStore.FindById(st.eventos, id).None? && dto.cupoTotal >= 0
    case _ => true
  }

  /** Every request of the trace is admissible in the store it meets. */
  ghost predicate Admisibles(v: Version, st: Store, trace: seq<Peticion>)
    decreases |trace|
  {
    |trace| == 0
    || (Admisible(st, trace[0].op) && Admisibles(v, Step(v, st, trace[0].reloj, trace[0].op), trace[1..]))
  }

  // ---- the invariant along runs ----

  lemma StepPreserva(v: Version, st: Store, reloj: int, op: Op)
    requires Lifecycle.Valid(st)
    requires Admisible(st, op)
    ensures Lifecycle.Valid(Step(v, st, reloj, op))
  {
    match op
    case Reservar(dto, id, sufijo) =>
      if Engine.Reservar(v, st, reloj, dto, id, sufijo).Ok? {
        Lifecycle.ReservarPreserva(v, st, reloj, dto, id, sufijo);
      }
    case Pagar(id) =>
      if Engine.Pagar(v, st, reloj, id).Ok? {
        Lifecycle.PagarPreserva(v, st, reloj, id);
      }
    case Validar(codigo) =>
      if Engine.Validar(v, st, reloj, codigo).Ok? {
        Lifecycle.ValidarPreserva(v, st, reloj, codigo);
      }
    case Barrer =>
      Lifecycle.BarrerPreserva(v, st, reloj);
    case CrearEvento(dto, id, sufijo) =>
      Lifecycle.CrearEventoPreserva(st, reloj, dto, id, sufijo);
    case CrearUsuario(dto, id, sufijo) =>
  }

  /** The invariant holds after every admissible run from a valid store. */
  lemma {:induction false} RunPreserva(v: Version, st: Store, trace: seq<Peticion>)
    requires Lifecycle.Valid(st)
    requires Admisibles(v, st, trace)
    ensures Lifecycle.Valid(Run(v, st, trace))
    decreases |trace|
  {
    if |trace| > 0 {
      StepPreserva(v, st, trace[0].reloj, trace[0].op);
      RunPreserva(v, Step(v, st, trace[0].reloj, trace[0].op), trace[1..]);
    }
  }

  // ---- states only move forward ----

  /** The ticket states a ticket can be in later: NUEVA can become anything,
      ACTIVA only UTILIZADA or CANCELADA, and those two are final. */
  predicate Alcanzable(a: EntradaEstado, b: EntradaEstado)
  {
    a == b || a.NUEVA? || (a.ACTIVA? && (b.UTILIZADA? || b.CANCELADA?))
  }

  predicate Terminal(e: EntradaEstado) { e.UTILIZADA? || e.CANCELADA? }

  /** How a later store relates to an earlier one: records are only appended,
      each ticket keeps its place and id and only moves forward, terminal
      tickets and non-ACTIVO events are left exactly as they were, and the
      users are only appended to. */
  ghost predicate Avanza(st: Store, s1: Store)
  {
    && |st.entradas| <= |s1.entradas|
    && |st.eventos| <= |s1.eventos|
    && st.usuarios <= s1.usuarios
    && (forall i :: 0 <= i < |st.entradas| ==>
          && s1.entradas[i].id == st.entradas[i].id
          && Alcanzable(st.entradas[i].estado, s1.entradas[i].estado)
          && (Terminal(st.entradas[i].estado) ==> s1.entradas[i] == st.entradas[i]))
    && (forall i :: 0 <= i < |st.eventos| ==>
          && s1.eventos[i].id == st.eventos[i].id
          && (!st.eventos[i].estado.ACTIVO? ==> s1.eventos[i] == st.eventos[i]))
  }

  lemma AvanzaTransitivo(s0: Store, s1: Store, s2: Store)
    requires Avanza(s0, s1) && Avanza(s1, s2)
    ensures Avanza(s0, s2)
  {
    assert forall i :: 0 <= i < |s0.entradas| ==> s1.entradas[i].estado == s2.entradas[i].estado || Alcanzable(s1.entradas[i].estado, s2.entradas[i].estado);
  }

  /** Appending a ticket changes no existing record. */
  lemma AgregarAvanza(st: Store, t: Entrada)
    ensures Avanza(st, st.(entradas := st.entradas + [t]))
  {
    assert st.usuarios <= st.usuarios;
  }

  /** Rewriting one non-terminal ticket to a later state, under the same id. */
  lemma ReemplazoAvanza(st: Store, k: nat, t: Entrada)
    requires k < |st.entradas|
    requires t.id == st.entradas[k].id
    requires !Terminal(st.entradas[k].estado) && Alcanzable(st.entradas[k].estado, t.estado)
    ensures Avanza(st, st.(entradas := st.entradas[k := t]))
  {
    assert st.usuarios <= st.usuarios;
  }

  lemma BarrerAvanza(v: Version, st: Store, reloj: int)
    requires ListStore.UniqueKeys(st.entradas, TicketStore.Id)
    requires ListStore.UniqueKeys(st.eventos, EventStore.Id)
    ensures Avanza(st, Sweep.Barrer(v, st, reloj).value.store)
  {
    SweepFacts.BarrerRespetaTerminales(v, st, reloj);
    assert st.usuarios <= st.usuarios;
  }

  lemma PagarAvanza(v: Version, st: Store, reloj: int, id: string)
    requires Engine.Pagar(v, st, reloj, id).Ok?
    ensures Avanza(st, Engine.Pagar(v, st, reloj, id).value.store)
  {
    var p := Engine.Pagar(v, st, reloj, id).value;
    var i := TicketStore.IndexById(st.entradas, id).value;
    assert p.store == st.(entradas := st.entradas[i := p.entrada]);
    ReemplazoAvanza(st, i, p.entrada);
  }

  lemma ValidarAvanza(v: Version, st: Store, reloj: int, codigo: string)
    requires ListStore.UniqueKeys(st.entradas, TicketStore.Id)
    requires Engine.Validar(v, st, reloj, codigo).Ok?
    ensures Avanza(st, Engine.Validar(v, st, reloj, codigo).value.store)
  {
    var p := Engine.Validar(v, st, reloj, codigo).value;
    var k := TicketStore.IndexByCodigo(st.entradas, codigo).value;
    Lifecycle.UnicoPorId(st.entradas, k);
    assert p.store == st.(entradas := st.entradas[k := p.entrada]);
    ReemplazoAvanza(st, k, p.entrada);
  }

  lemma StepAvanza(v: Version, st: Store, reloj: int, op: Op)
    requires ListStore.UniqueKeys(st.entradas, TicketStore.Id)
    requires ListStore.UniqueKeys(st.eventos, EventStore.Id)
    ensures Avanza(st, Step(v, st, reloj, op))
  {
    assert st.usuarios <= st.usuarios;
    match op
    case Reservar(dto, id, sufijo) =>
      if Engine.Reservar(v, st, reloj, dto, id, sufijo).Ok? {
        AgregarAvanza(st, Engine.Reservar(v, st, reloj, dto, id, sufijo).value.entrada);
      }
    case Pagar(id) =>
      if Engine.Pagar(v, st, reloj, id).Ok? {
        PagarAvanza(v, st, reloj, id);
      }
    case Validar(codigo) =>
      if Engine.Validar(v, st, reloj, codigo).Ok? {
        ValidarAvanza(v, st, reloj, codigo);
      }
    case Barrer =>
      BarrerAvanza(v, st, reloj);
    case CrearEvento(dto, id, sufijo) =>
    case CrearUsuario(dto, id, sufijo) =>
  }

  /** Along any admissible run from a valid store, tickets only move forward
      and terminal records stay as they were. */
  lemma {:induction false} RunAvanza(v: Version, st: Store, trace: seq<Peticion>)
    requires Lifecycle.Valid(st)
    requires Admisibles(v, st, trace)
    ensures Avanza(st, Run(v, st, trace))
    decreases |trace|
  {
    if |trace| == 0 {
      assert st.usuarios <= st.usuarios;
    } else {
      var s1 := Step(v, st, trace[0].reloj, trace[0].op);
      StepAvanza(v, st, trace[0].reloj, trace[0].op);
      StepPreserva(v, st, trace[0].reloj, trace[0].op);
      RunAvanza(v, s1, trace[1..]);
      AvanzaTransitivo(st, s1, Run(v, s1, trace[1..]));
    }
  }
}
