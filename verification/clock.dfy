/** Reading the clock. The wall-clock reading is a parameter of every
    operation; the services that go through the date helper shift it by
    three hours, the class-based ticket service does not. */
module Clock {
  import Domain

  const GMT3_OFFSET: int := -3 * Domain.HORA_MS

  /** The date helper's "now": the wall clock moved back three hours. */
  function NewDate(reloj: int): (r: int)
    ensures r + 3 * Domain.HORA_MS == reloj
  {
    reloj + GMT3_OFFSET
  }

  /** The two versions of the ticket engine found in the source: the
      module of exported functions and the class with injected repositories. */
  datatype Version = ModuleFunctions | ServiceClass

  /** The instant a version of the engine compares and records. */
  function Ahora(v: Version, reloj: int): (r: int)
    ensures v.ModuleFunctions? ==> r == NewDate(reloj)
    ensures v.ServiceClass? ==> r == reloj
  {
    match v
    case ModuleFunctions => NewDate(reloj)
    case ServiceClass => reloj
  }

  /** Both clocks are monotone: a later wall reading is a later "now". */
  lemma AhoraMonotone(v: Version, r1: int, r2: int)
    requires r1 <= r2
    ensures Ahora(v, r1) <= Ahora(v, r2)
  {
  }
}
