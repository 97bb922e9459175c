# ManagerEventos ticket engine — a Dafny model

ManagerEventos sells places ("localidades") for events ("eventos") to users
("usuarios"). A ticket ("entrada") is reserved as NUEVA and paid to become
ACTIVA. At the door it is validated and becomes UTILIZADA. A maintenance
sweep cancels stale reservations and tickets whose event has passed, which
makes them CANCELADA. The capacity of an event is `cupoTotal`, and the
engine counts the places of NUEVA and ACTIVA tickets against it.

The engine exists in two versions, and both are modelled under the switch
`Clock.Version`:

- `ModuleFunctions` is the module of exported functions
  (`src/services/entrada.service.ts`). It reads the clock through the date
  helper, which shifts it back three hours. Its reservation window and its
  pay-before-event check are commented out. Its sweep also moves past
  events to FINALIZADO.
- `ServiceClass` is the class with injected repositories
  (`src/services/EntradaService.ts`). It uses the wall clock as is. It
  enforces a five-hour reservation and validation window and a
  pay-before-event check. Its sweep returns two counters and leaves events
  alone.

Around the engine the model covers these parts:

- user and event creation, in both twins (module and class);
- the file-backed stores, each an in-memory list with first-match lookup,
  append, and replace-by-id;
- the pure parts of the page controller: display occupancy, availability,
  the home filter and ordering, the price, and the ownership and admin
  guards;
- the mock-session middleware;
- the repository-type selection of `RepositoryFactory`.

Every operation is a pure function from the store, a clock reading and its
inputs to a `Result` and the new store. Ids and random codes are
parameters.

On top of the operations the model proves these properties:

- the store invariant `Lifecycle.Valid` is preserved:
  - ids are unique;
  - quantities are positive;
  - every ticket names a stored event;
  - no event holds more NUEVA/ACTIVA places than its capacity;
  - active e-mails are unique;
- that invariant holds along every run of requests, with the corrected e-mail check (see Findings) (`Trace.RunPreserva`);
- ticket states only move forward, and terminal records are never touched
  (`Trace.RunAvanza`);
- the round trip reserve → pay → validate (`RoundTrip.CicloDeVida`);
- the sweep is idempotent (`SweepFacts.BarrerIdempotente`).

Modules, one per file:

| module | file |
|---|---|
| `Wrappers` | `wrappers.dfy` |
| `Domain` | `domain.dfy` |
| `ListStore` | `list_store.dfy` |
| `Clock` | `clock.dfy` |
| `TicketStore` | `ticket_store.dfy` |
| `EventStore` | `event_store.dfy` |
| `UserStore` | `user_store.dfy` |
| `Occupancy` | `occupancy.dfy` |
| `Engine` | `engine.dfy` |
| `Sweep`, `SweepFacts` | `sweep.dfy` |
| `EventService` | `event_service.dfy` |
| `UserService` | `user_service.dfy` |
| `Lifecycle` | `lifecycle.dfy` |
| `Trace` | `trace.dfy` |
| `RoundTrip` | `round_trip.dfy` |
| `Home` | `home.dfy` |
| `Views` | `views.dfy` |
| `MockUser` | `mock_user.dfy` |
| `RepositoryFactory` | `repository_factory.dfy` |
| `Scenarios` | `scenarios.dfy` |

## Model

| member | source | states |
|---|---|---|
| Clock.NewDate | src/utils/dateHelper.ts:5-13 | The helper's "now" is exactly three hours behind the wall-clock reading. |
| Clock.Ahora | src/services/entrada.service.ts:65 | The module engine compares and stamps the shifted instant. The class engine uses the wall clock unchanged. |
| Clock.AhoraMonotone | src/utils/dateHelper.ts:11-13 | For both versions, a later wall reading never gives an earlier "now". |
| ListStore.AppendKeepsUnique | src/persistence/file/fileTicket.model.ts:40-44 | Pushing a record whose id is not yet used keeps ids unique. |
| ListStore.IndexOf | src/persistence/file/fileTicket.model.ts:48 | `findIndex` gives the first position with the key, and nothing before it matches. There is no position exactly when no record has the key. |
| ListStore.FindFirst | src/persistence/file/fileTicket.model.ts:16-19 | `find ?? null` gives the record at the first matching position. It is null exactly when no record matches. |
| ListStore.Filter | src/persistence/file/fileTicket.model.ts:30-33 | `filter` keeps exactly the records that satisfy the predicate, each as many times as in the input. |
| ListStore.FilterConcat | src/persistence/file/fileTicket.model.ts:30-38 | Filtering distributes over concatenation, so the result is the order-preserving subsequence of matching records. |
| ListStore.FilterFilter | src/services/entrada.service.ts:28-30 | `findByEventoId` followed by the state filter keeps what a single filter on both conditions keeps. |
| ListStore.Append | src/persistence/file/fileTicket.model.ts:40-44 | `push` grows the list by one with the new record last. All earlier records are unchanged. |
| ListStore.Update | src/persistence/file/fileTicket.model.ts:46-52 | Replaces the first record with the same id and keeps length and every other position. It fails with nothing written exactly when no record has that id. |
| ListStore.UpdateLuegoFind | src/persistence/file/fileTicket.model.ts:46-52 | After a successful update, a lookup of that id returns the record just written. |
| ListStore.AppendLuegoFind | src/persistence/file/fileTicket.model.ts:40-44 | A record saved under a fresh id is what a lookup of that id returns. |
| ListStore.AppendConservaFind | src/persistence/file/fileTicket.model.ts:16-19 | A save never changes what an earlier successful lookup returns. |
| ListStore.ApplyOk | src/services/entrada.service.ts:202-235 | The sweep's loop of whole-record updates never hits "not found" when it walks a snapshot of the same store and keeps ids. |
| ListStore.Apply | src/services/entrada.service.ts:196-235 | The sweep walks a snapshot of the store and writes each rewritten record back with `update`; the first failed write aborts, and a finished walk leaves a store of the same length. Its pointwise effect is stated by ListStore.ApplyIsPointwise. |
| ListStore.ApplyIsPointwise | src/services/entrada.service.ts:202-235 | With unique ids, the snapshot-and-update loop is a pointwise map: each record is replaced in place by its own rewrite. |
| TicketStore.IndexById | src/persistence/file/fileTicket.model.ts:46-49 | First position whose ticket has the id. There is none exactly when no ticket has it. |
| TicketStore.FindById | src/persistence/file/fileTicket.model.ts:16-19 | First ticket with the id, or null exactly when there is none. |
| TicketStore.IndexByCodigo | src/persistence/file/fileTicket.model.ts:21-24 | First position whose ticket has the code. There is none exactly when no ticket has it. |
| TicketStore.FindByCodigo | src/persistence/file/FileTicketRepository.ts:20-23 | First ticket with the code, or null exactly when there is none. |
| TicketStore.FindByEventoId | src/persistence/file/FileTicketRepository.ts:29-32 | Exactly the tickets of the event, with their multiplicities. |
| TicketStore.FindByUsuarioId | src/persistence/file/fileTicket.model.ts:35-38 | Exactly the tickets of the user, with their multiplicities. |
| TicketStore.FindByEventoIdConcat | src/persistence/file/fileTicket.model.ts:30-33 | `findByEventoId` keeps store order: on `a + b` it returns the event's tickets of `a` followed by those of `b`, and a single ticket is returned iff it belongs to the event. |
| TicketStore.FindByUsuarioIdConcat | src/persistence/file/fileTicket.model.ts:35-38 | `findByUsuarioId` keeps store order: on `a + b` it returns the user's tickets of `a` followed by those of `b`, and a single ticket is returned iff it belongs to the user. |
| TicketStore.Save | src/persistence/file/FileTicketRepository.ts:34-38 | Appends one ticket and leaves earlier ones unchanged. |
| TicketStore.Update | src/persistence/file/FileTicketRepository.ts:40-46 | Replaces the first same-id ticket and keeps length and other positions. An unknown id is an error and writes nothing. |
| EventStore.IndexById | src/persistence/file/fileEvent.model.ts:31-36 | First position of the event id, or none exactly when it is absent. |
| EventStore.FindById | src/persistence/file/FileEventRepository.ts:15-18 | First event with the id, or null exactly when there is none. `obtenerEvento` is this lookup. |
| EventStore.AgregarEvento | src/persistence/file/fileEvent.model.ts:25-29 | Appends one event and leaves the others unchanged. |
| EventStore.Update | src/persistence/file/FileEventRepository.ts:30-38 | Replaces the first same-id event and preserves the rest. An unknown id is an error and writes nothing. |
| UserStore.FindById | src/persistence/file/fileUser.model.ts:15-18 | The user at the first position with the id, or null exactly when there is none. |
| UserStore.IndexByEmail | src/persistence/file/fileUser.model.ts:20-23 | First position with the e-mail, whatever the user's state. |
| UserStore.FindByEmail | src/persistence/file/FileUserRepository.ts:20-23 | The earliest user with the e-mail, regardless of state, or null exactly when there is none. |
| UserStore.Save | src/persistence/file/fileUser.model.ts:29-33 | Appends one user and leaves earlier ones unchanged. |
| UserStore.Update | src/persistence/file/FileUserRepository.ts:35-41 | Replaces the first same-id user and keeps the rest. An unknown id is an error and writes nothing. |
| Occupancy.SumaCantidadesConcat | src/services/entrada.service.ts:31 | The `reduce` of quantities is additive over concatenation. |
| Occupancy.Ocupadas | src/services/entrada.service.ts:27-32 | The engine's `calcularLocalidadesOcupadas`: the event's tickets, then those NUEVA or ACTIVA, then the `reduce` of their quantities. Occupancy.OcupadasEsSumaDeVigentes equates it with an independent per-ticket sum. |
| Occupancy.SumaFiltrada | src/services/entrada.service.ts:27-32 | Filter-then-reduce equals the sum, ticket by ticket, of the quantities of the counted tickets of the event. |
| Occupancy.OcupadasEsSumaDeVigentes | src/services/entrada.service.ts:27-32 | Occupancy is the sum of quantities over the event's NUEVA and ACTIVA tickets. UTILIZADA, CANCELADA and other events' tickets contribute 0. |
| Occupancy.SumaDeAppend | src/services/entrada.service.ts:108 | An appended ticket adds its contribution and changes nothing else in the sum. |
| Occupancy.OcupadasAgregar | src/services/EntradaService.ts:30-35 | Appending a ticket adds its quantity to its event's occupancy iff it is NUEVA or ACTIVA. |
| Occupancy.OcupadasReemplazo | src/services/EntradaService.ts:30-35 | Replacing one ticket swaps its old contribution for its new one. |
| Occupancy.OcupadasMonotone | src/services/EntradaService.ts:30-35 | If every ticket contributes no more, occupancy is no larger. |
| Occupancy.OcupadasTrasRetirar | src/services/entrada.service.ts:186-190 | A ticket leaving NUEVA/ACTIVA frees exactly its quantity from its own event and nothing elsewhere. |
| Occupancy.SumaDeUpdate | src/services/EntradaService.ts:30-35 | The per-ticket sum after replacing a ticket is the old sum minus the old contribution plus the new one. |
| Occupancy.SumaDeMonotone | src/services/EntradaService.ts:30-35 | Pointwise no larger contributions give a no larger sum. |
| Occupancy.SumaDeSplit | src/controllers/ViewController.ts:14-25 | A sum over two disjoint sets of states is the sum of the two sums. |
| Occupancy.SumaDeNonNegative | src/services/EntradaService.ts:30-35 | With non-negative quantities every occupancy count is non-negative. |
| Domain.Codigo | src/services/entrada.service.ts:22-25 | Every record code is its kind's prefix ("ENT-" for tickets, "EVT-" for events, "USR-" for users) followed by exactly the random suffix. |
| Domain.CodigoInyectivo | src/controllers/ViewController.ts:390 | Two codes built with prefixes of the same length coincide iff prefix and suffix both coincide. So "ENT-" + input names exactly the ticket made with that suffix. |
| Engine.VentanasExclusivas | src/services/EntradaService.ts:59-64 | For any event and instant, exactly one of "reservation allowed by the window" and "validation allowed by the window" holds. Reservation is allowed iff now < fechaHora − 5h. |
| Engine.Reservar | src/services/entrada.service.ts:53-111 | Succeeds iff the event is ACTIVO, the class version's window is open, the user exists and is ACTIVO, and 0 < quantity ≤ cupoTotal − occupancy. On success it appends exactly one NUEVA ticket with the requested quantity, the found event and user, an ENT- code, and fechaReserva = createdAt = updatedAt = now. No other change is made. |
| Engine.Disponibles | src/services/EntradaService.ts:75-76 | The free places at an event are its cupoTotal minus the quantities of its NUEVA and ACTIVA tickets (the independent sum). An unknown event has none. |
| Engine.ReservarPrimerFallo | src/services/EntradaService.ts:48-82 | The rejection reported is the first failing check, in this order: event missing, event not ACTIVO, window closed, user not valid, quantity ≤ 0, quantity > disponibles (reporting disponibles). |
| Engine.Pagar | src/services/EntradaService.ts:103-134 | An unknown id is "not found". Payment succeeds iff the ticket is NUEVA, its event is ACTIVO, and, in the class version, now < fechaHora. It changes only that ticket's state to ACTIVA and fechaPago = updatedAt = now. |
| Engine.PagarPrimerFallo | src/services/EntradaService.ts:103-125 | Once the ticket is found, the rejection reported is the first failing check, in this order: ticket not NUEVA, event missing, event not ACTIVO, and (class version) fechaHora ≤ now. |
| Engine.Validar | src/services/entrada.service.ts:153-192 | An unknown code is "not found". Validation succeeds iff the ticket is ACTIVA, its event exists and is not CANCELADO (FINALIZADO is allowed), and, in the class version, now ≥ fechaHora − 5h. It sets only UTILIZADA and fechaUso = updatedAt = now at that ticket's position. |
| Engine.ValidarPrimerFallo | src/services/EntradaService.ts:137-166 | Once the ticket is found, the rejection reported is the first failing check, in this order: ticket not ACTIVA, event missing, event CANCELADO, and (class version) now < fechaHora − 5h. |
| Sweep.MotivoDe | src/services/entrada.service.ts:202-235 | Tickets of a missing event are skipped. A NUEVA ticket is cancelled "por reserva" exactly when fechaReserva + 24h < now. Otherwise a NUEVA or ACTIVA ticket is cancelled "por evento" exactly when its event's fechaHora < now. |
| Sweep.BarridoNoFalla | src/services/entrada.service.ts:195-258 | None of the sweep's updates can fail: each rewritten record is still in the store. |
| Sweep.Barrer | src/services/entrada.service.ts:194-258 | The sweep never fails and keeps users and the ticket count. Each ticket counter equals the number of tickets cancelled for that reason. The class version leaves events untouched and reports no event counter. The module version reports how many events of the whole store are due (ACTIVO and past start + 2h), although its loop walks only the ACTIVO snapshot. |
| SweepFacts.BarrerPuntual | src/services/entrada.service.ts:202-253 | The sweep rewrites every ticket in place according to its own reason. Only the module version finalizes ACTIVO events with fechaHora + 2h < now. |
| SweepFacts.BarrerCuentaFinalizados | src/services/entrada.service.ts:247-257 | The module version's `eventosFinalizados` is exactly the number of events it moved to FINALIZADO. |
| SweepFacts.BarrerRespetaTerminales | src/services/EntradaService.ts:184-212 | UTILIZADA/CANCELADA tickets and non-ACTIVO events are left exactly as they were. Any other ticket is kept or becomes CANCELADA with only updatedAt changed. Any event is kept or becomes FINALIZADO with only updatedAt changed. |
| SweepFacts.FindByIdMismaFecha | src/services/entrada.service.ts:204-210 | The lookups the sweep makes see the same event dates before and after events are rewritten. |
| SweepFacts.EntradasEstables | src/services/entrada.service.ts:213-234 | After the sweep no ticket has a reason to be cancelled at the same instant. |
| SweepFacts.TrasBarrido | src/services/entrada.service.ts:195-258 | After a sweep ids stay unique, no ticket is due, and, in the module version, no event is due for finalization. |
| SweepFacts.BarrerIdempotente | src/services/entrada.service.ts:241-257 | With a fixed now, a second sweep changes nothing and reports all-zero counters. |
| EventService.CrearEvento | src/services/evento.service.ts:24-42 | The new event is ACTIVO, copies nombre, fechaHora and cupoTotal, has createdAt = updatedAt = the helper's now, and is appended exactly once. |
| UserService.RolOPorDefecto | src/services/UsuarioService.ts:52 | The given role is kept, and a missing role becomes NORMAL. |
| UserService.CrearUsuario | src/services/UsuarioService.ts:36-60 | Rejects exactly when the first user with the e-mail is ACTIVO, and a rejection saves nothing. Otherwise it appends exactly one ACTIVO user with copied fields, the defaulted role, a USR- code and createdAt = updatedAt = now. |
| UserService.CrearUsuarioDuplicaEmail | src/services/UsuarioService.ts:37-40 | Counterexample: a BORRADO user listed before an ACTIVO user with the same e-mail lets a second ACTIVO user with that e-mail in. |
| UserService.HayActivoConEmail | src/services/usuario.service.ts:36-39 | True iff some ACTIVO user has the e-mail. |
| UserService.CrearUsuarioSinDuplicar | src/services/usuario.service.ts:35-59 | Corrected creation: rejects exactly when some ACTIVO user has the e-mail, and it keeps active e-mails unique. |
| UserService.CrearUsuarioCoincide | src/services/UsuarioService.ts:37-40 | When no ACTIVO user follows another user with the same e-mail, the source's check and the corrected one agree. |
| Lifecycle.CupoSegunMotor | src/services/entrada.service.ts:85-88 | The capacity invariant, stated with per-ticket sums, is the engine's own occupancy computation ≤ cupoTotal for every event. |
| Lifecycle.ReservarOcupacion | src/services/entrada.service.ts:85-108 | After a successful reservation, the event's occupancy equals the old one plus the quantity and is ≤ cupoTotal. Other events are unchanged. |
| Lifecycle.PagarConservaOcupacion | src/services/entrada.service.ts:114-150 | Payment leaves every event's occupancy unchanged. |
| Lifecycle.UnicoPorId | src/persistence/file/fileTicket.model.ts:48 | With unique ids, the update's `findIndex` finds a ticket at its own position. |
| Lifecycle.ValidarLiberaCupo | src/services/entrada.service.ts:153-192 | Validation lowers the ticket's event occupancy by the ticket's quantity and no other event's. |
| Lifecycle.BarrerNoAumentaOcupacion | src/services/entrada.service.ts:195-235 | The sweep never increases any event's occupancy. |
| Lifecycle.CupoAgregar | src/services/EntradaService.ts:75-82 | A ticket that fits within what is left keeps every event within capacity. |
| Lifecycle.CupoReemplazo | src/services/EntradaService.ts:128-132 | Rewriting a ticket that moves only forward in state keeps every event within capacity. |
| Lifecycle.ReferidosAgregarEntrada | src/services/EntradaService.ts:86-98 | A ticket for a stored event keeps every ticket naming a stored event. |
| Lifecycle.AgregarEntradaPreserva | src/services/EntradaService.ts:86-98 | Appending a fresh-id, positive-quantity ticket for a stored event that fits its capacity preserves the store invariant. |
| Lifecycle.ReemplazarEntradaPreserva | src/persistence/file/fileTicket.model.ts:46-52 | Replacing a ticket by one with the same id, event and quantity and no "more live" state preserves the store invariant. |
| Lifecycle.ReservarPreserva | src/services/EntradaService.ts:48-100 | A successful reservation with a fresh id preserves the store invariant. |
| Lifecycle.PagarPreserva | src/services/EntradaService.ts:103-134 | A successful payment preserves the store invariant. |
| Lifecycle.ValidarPreserva | src/services/EntradaService.ts:137-174 | A successful validation preserves the store invariant. |
| Lifecycle.ReescribirPreserva | src/services/entrada.service.ts:217-250 | A store rewrite that keeps ids, events, quantities, dates and capacities and never revives a ticket preserves the invariant. |
| Lifecycle.BarrerConservaCampos | src/services/entrada.service.ts:217-250 | The sweep keeps every ticket's id, event and quantity and every event's id, date and capacity, and it never revives a ticket. |
| Lifecycle.BarrerPreserva | src/services/entrada.service.ts:195-258 | Both versions of the sweep preserve the store invariant. |
| Lifecycle.SinEntradasSinOcupacion | src/services/entrada.service.ts:27-32 | An event with no tickets has occupancy 0. |
| Lifecycle.ReferidosAgregarEvento | src/persistence/file/fileEvent.model.ts:25-29 | Adding an event never breaks a ticket's reference to its event. |
| Lifecycle.CupoAgregarEvento | src/services/EventoService.ts:25-43 | A new event with a fresh id and non-negative capacity starts empty and within capacity. |
| Lifecycle.CrearEventoPreserva | src/services/evento.service.ts:24-42 | Event creation with a fresh id and non-negative capacity preserves the store invariant. |
| Trace.StepPreserva | src/services/entrada.service.ts:53-258 | Every admissible request, accepted or rejected, preserves the store invariant. |
| Trace.RunPreserva | src/services/EntradaService.ts:48-219 | The store invariant holds after any sequence of admissible requests. |
| Trace.AvanzaTransitivo | src/models/enums/entradaEstado.ts:1-6 | "Only moves forward" composes over successive requests. |
| Trace.AgregarAvanza | src/services/entrada.service.ts:108 | Appending a ticket moves nothing backward. |
| Trace.ReemplazoAvanza | src/persistence/file/fileTicket.model.ts:46-52 | Rewriting a non-terminal ticket to a reachable state moves nothing backward. |
| Trace.BarrerAvanza | src/services/entrada.service.ts:195-258 | The sweep only moves tickets to CANCELADA and events to FINALIZADO and leaves terminal records alone. |
| Trace.PagarAvanza | src/services/entrada.service.ts:122-148 | Payment moves one ticket NUEVA → ACTIVA and nothing else. |
| Trace.ValidarAvanza | src/services/entrada.service.ts:159-190 | Validation moves one ticket ACTIVA → UTILIZADA and nothing else. |
| Trace.StepAvanza | src/services/EntradaService.ts:109-205 | Every request leaves UTILIZADA/CANCELADA tickets and non-ACTIVO events exactly as they were and moves ticket states only forward. |
| Trace.RunAvanza | src/services/EntradaService.ts:109-205 | Along any run, records are only appended, terminal records never change, and ticket states only move forward. |
| RoundTrip.PagarRecienAgregada | src/services/entrada.service.ts:114-150 | Paying a just-appended NUEVA ticket of an ACTIVO event succeeds iff the payment deadline holds, and it yields that ticket made ACTIVA. |
| RoundTrip.ReservarLuegoPagar | src/services/EntradaService.ts:93-130 | Reserve then pay succeeds iff the payment deadline holds. The result is the reserved ticket made ACTIVA, stamped with the second instant. |
| RoundTrip.PagadaLuegoValidar | src/services/EntradaService.ts:137-174 | Validating a fresh ACTIVA ticket succeeds iff its event is not CANCELADO and the window is open, and it yields that ticket made UTILIZADA. |
| RoundTrip.NoVigenteNoOcupa | src/services/entrada.service.ts:30 | A UTILIZADA or CANCELADA ticket takes no place. |
| RoundTrip.CicloDeVida | src/services/EntradaService.ts:93-169 | With a monotone clock, reserve → pay → validate ends in UTILIZADA with fechaReserva ≤ fechaPago ≤ fechaUso and identity fields intact. |
| RoundTrip.CicloLiberaCupo | src/services/EntradaService.ts:30-35 | After the full cycle every event's occupancy is back where it started. |
| Home.CompararEsOrden | src/controllers/ViewController.ts:39-43 | The home comparator is a total preorder: ACTIVO first, then ascending fechaHora. |
| Home.Comparar | src/controllers/ViewController.ts:39-43 | The comparator is ≤ 0 exactly when the first event may precede the second: ACTIVO before the rest, then by start time. |
| Home.Insertar | src/controllers/ViewController.ts:39-43 | Inserting one event gives a permutation of the list plus that event. |
| Home.InsertarOrdenada | src/controllers/ViewController.ts:39-43 | Inserting into an ordered list keeps it ordered. |
| Home.OrdenarHome | src/controllers/ViewController.ts:39-43 | The result is a permutation of the input. Every ACTIVO event precedes every non-ACTIVO one, and within each group fechaHora ascends. |
| Home.FiltrarHome | src/controllers/ViewController.ts:34-36 | With no filter or "TODOS" the list is unchanged. Otherwise exactly the events whose state name equals the filter are kept, with multiplicities. |
| Home.ListaHome | src/controllers/view.controller.ts:32-41 | The home list is an ordered permutation of the filtered events. |
| Views.Precio | src/controllers/ViewController.ts:11 | Price is the quantity times 5000, and a positive quantity costs at least 5000. |
| Views.OcupadasVista | src/controllers/ViewController.ts:14-25 | The pages' own occupancy count: the event's NUEVA, ACTIVA and UTILIZADA tickets, summed. Views.OcupadasVistaSuma relates it to the engine's count. |
| Views.SinUsuario | src/controllers/ViewController.ts:131-133 | The "no user" guard: the request has no user, or a user with an empty id. |
| Views.EsDueno | src/controllers/ViewController.ts:184 | The ownership guard: the request has a user and that user's id is the ticket's usuarioId. With no user, nobody owns the ticket. |
| Views.EsAdmin | src/controllers/ViewController.ts:382 | The admin guard: the request has a user whose role is ADMIN. |
| Views.OcupadasVistaSuma | src/controllers/ViewController.ts:14-25 | Display occupancy is the engine's occupancy plus the UTILIZADA places. |
| Views.OcupadasVistaCubreMotor | src/controllers/view.controller.ts:12-23 | Display occupancy is at least the engine's occupancy. |
| Views.VerDisponibilidad | src/controllers/ViewController.ts:62-92 | A missing event is "not found". Otherwise ocupadas + disponibles = cupoTotal, with ocupadas the display occupancy. |
| Views.DisponiblesVistaNoSuperaMotor | src/controllers/ViewController.ts:76 | Displayed disponibles is the engine's available count minus the UTILIZADA places, so it is never more. |
| Views.VerEntrada | src/controllers/ViewController.ts:304-345 | Unknown ticket is "not found", and a non-owner is refused. The page shows the owner's ticket, its event and its price. |
| Views.ProcesarReserva | src/controllers/ViewController.ts:127-168 | No user is refused and a missing event is "not found", both without writing. The page appears iff the engine accepts the reservation for the caller. It shows the new ticket together with the event that was looked up. |
| Views.ProcesarPago | src/controllers/ViewController.ts:218-264 | Only the owner can pay. The page appears iff the ticket is the caller's and the engine accepts payment. Otherwise the store is unchanged. |
| Views.MisEntradas | src/controllers/ViewController.ts:267-301 | No user is refused. Otherwise the page lists exactly the caller's stored tickets, each as many times as it is stored. Each ticket is paired with the lookup of its event, which is absent when the event is missing. |
| Views.BuscarEntrada | src/controllers/ViewController.ts:379-447 | Non-admins are refused. An admin gets, in order: "event not found" iff the event is missing; "ticket not found" iff the event exists and no ticket has code "ENT-" + input; a mismatch iff the ticket belongs to another event; and otherwise the page with that ticket, its event and its price. |
| Views.ValidarVista | src/controllers/ViewController.ts:450-493 | Non-admins are refused without writing. The page appears iff the engine validates the code. |
| Views.BuscarEncuentraReserva | src/controllers/view.controller.ts:388-424 | An admin searching a just-reserved ticket by its suffix and event finds it with its price. |
| MockUser.UsuarioNormal | src/middleware/mockUser.ts:23-34 | The normal mock user is ACTIVO with role NORMAL. |
| MockUser.UsuarioAdmin | src/middleware/mockUser.ts:37-48 | The admin mock user is ACTIVO with role ADMIN, distinct in id and e-mail from the normal one. |
| MockUser.ActualizarFlag | src/middleware/mockUser.ts:52-56 | "true" sets the session flag, "false" clears it, and any other value leaves it unchanged. |
| MockUser.Resolver | src/middleware/mockUser.ts:59-63 | The admin mock is chosen iff the flag is true, otherwise the normal mock. |
| MockUser.Middleware | src/middleware/mockUser.ts:50-66 | The request user is admin iff the query says "true", or it does not say "false" and the session flag was set. |
| MockUser.FlagTrasUltima | src/middleware/mockUser.ts:52-56 | The flag after a sequence of requests is the last request applied to the flag before it. |
| MockUser.UltimaOrdenDecide | src/middleware/mockUser.ts:50-66 | The flag is decided by the last "true"/"false" request. With the flag never set, the user is the NORMAL one. |
| RepositoryFactory.MinusculaChar | src/config/RepositoryFactory.ts:18 | ASCII upper-case letters are lowered and every other character is kept. |
| RepositoryFactory.Minusculas | src/config/RepositoryFactory.ts:18 | `toLowerCase` keeps the length and lowers each character. |
| RepositoryFactory.Elegido | src/config/RepositoryFactory.ts:18 | The raw type is the first non-empty of the parameter, REPOSITORY_TYPE and "file". |
| RepositoryFactory.Initialize | src/config/RepositoryFactory.ts:16-28 | The type is mysql iff the chosen value equals "mysql" ignoring case. Anything else, including invalid values, falls back to file. |
| RepositoryFactory.MinusculasIdempotente | src/config/RepositoryFactory.ts:18 | Lower-casing an already lower-cased value changes nothing. |
| RepositoryFactory.InitializeIgnoraMayusculas | src/config/RepositoryFactory.ts:18-25 | Any non-empty argument selects the same store as its lower-case spelling, so matching is case-insensitive. |
| RepositoryFactory.Crear | src/config/RepositoryFactory.ts:30-49 | Every create* builds the MySQL implementation iff the type is mysql, otherwise the file one. |
| RepositoryFactory.EjemplosMySql | src/config/RepositoryFactory.ts:18-24 | "MySQL" as parameter, or "MYSQL" from the environment, selects mysql. |
| RepositoryFactory.EjemplosPrecedencia | src/config/RepositoryFactory.ts:18 | A non-empty parameter wins over the environment, and an empty one defers to it. |
| Scenarios.CupoAgotado | src/services/EntradaService.ts:75-82 | After 4 of 10 places are reserved, asking for 7 is refused reporting 6 left. |
| Scenarios.VentanaSoloEnClase | src/services/EntradaService.ts:59-64 | Four hours before the event the class engine refuses a reservation and the module engine accepts it. |
| Scenarios.ReservaCaducada | src/services/EntradaService.ts:191-200 | An unpaid reservation 25 hours old is cancelled "por reserva" by the sweep. |
| Scenarios.EventoFinalizado | src/services/entrada.service.ts:241-253 | An ACTIVO event more than two hours past its start is finalized by the module sweep. |

## Left out

- File I/O: reading and writing the JSON files is not modelled. A store is the list the file holds, and each operation is one atomic read-modify-write. No claim is made about concurrent requests (reserve reads occupancy and saves later without locking).
- Clock reading: the wall clock is a parameter `reloj` in milliseconds. Dates are integers, so ISO-string formatting and parsing are not modelled.
- Sweep.Barrer: the module version reads the shifted clock once per ticket. The model uses one instant for the whole sweep, so readings that move during the loop are not modelled.
- Ids and codes: `randomUUID` and `Math.random` are parameters. The model does not claim they are unique. The invariant theorems require a fresh ticket or event id instead (`Trace.Admisible`).
- Lifecycle.CrearEventoPreserva: requires cupoTotal ≥ 0, which the source does not check. A negative capacity would break "within capacity" already for an empty event.
- JavaScript numbers: quantities and capacities are unbounded integers. A NaN quantity from `parseInt` in the page controller is not modelled.
- Rendering: `res.render`, HTTP status codes and `toLocaleString` price formatting are replaced by a `Respuesta` value.
- The form pages `formReservarEntrada`, `formPagarEntrada` and `formValidarEntradas` are covered by `Views.VerDisponibilidad` and `Views.VerEntrada`. The event list of the validation form is the store's event list.
- `listarEntradas`, `listarEventos`, `listarUsuarios` and `findAll`: these return the whole list and are the store value itself.
- RepositoryFactory.Minusculas: lower-cases ASCII letters only. Non-ASCII case mapping of `toLowerCase` is not modelled.
- RepositoryFactory: `getRepositoryType` is only a read of the stored type. The warning and log lines are output only.
- MySQL repositories are not part of this model.
- Wiring mismatches:
  - The class page controller calls `validarEntrada`, `obtenerEntradaPorCodigo` and `listarEntradasPorUsuario`, which the ticket class does not define. The model serves them with `Engine.Validar`, `TicketStore.FindByCodigo` and `TicketStore.FindByUsuarioId`.
  - The event class calls `save`, while its store has `agregarEvento`. The model appends with `EventStore.AgregarEvento`.
  - The ticket module imports repository getters that `RepositoryFactory` does not define. The model passes the store explicitly.
- Home.OrdenarHome: the model sorts by stable insertion. Stability, meaning that equal keys keep their input order, is not stated.
- MockUser: the mock users' `createdAt` is the parameter `cargado`. The session store itself is a parameter.
- Trace.Step: user creation in the request model uses the corrected e-mail check (see Findings), not the source's.
- Trace.StepPreserva: holds for the request model's corrected user creation only. The program as written can break the unique-active-e-mail part of the invariant.
- Trace.RunPreserva: covers runs of the request model, not runs of the program as written, for the same reason.

## Findings

| source | as written | input that shows it | evidently intended | confidence | as-written member | corrected member |
|---|---|---|---|---|---|---|
| src/services/UsuarioService.ts:37-40 | Only the first user returned by `findByEmail` is inspected for ACTIVO | Users `[BORRADO x@y, ACTIVO x@y]` and a new user with e-mail x@y: the BORRADO one is found, so creation succeeds and two ACTIVO users share x@y | Refuse when any ACTIVO user has the e-mail | not executed | UserService.CrearUsuarioDuplicaEmail | UserService.CrearUsuarioSinDuplicar |

