/** The records kept in the browser store of the grain-receiving console, and
    the invariants the weighbridge relies on. Every storage key holds a whole
    array that a handler reads and replaces; here each is a `seq` value. */
module Domain {

  datatype Option<T> = None | Some(value: T)

  datatype Result<T, E> = Ok(value: T) | Err(error: E)

  /** Lifecycle of an operation (one truck quota on one day):
      P pending quota, A arrived at the gate, C quality passed ("calado"),
      B gross weight recorded, F finished (tare recorded), R rejected. */
  datatype Estado = P | A | C | B | F | R

  /** An operation record of `operaciones_dat`; weights in whole kilograms. */
  datatype Operacion = Operacion(
    patente: string,
    codprod: string,
    fechacup: string,
    estado: Estado,
    bruto: int,
    tara: int)

  /** A silo record of `silos_dat`; `stock` and `capacidad` in kilograms. */
  datatype Silo = Silo(
    codsil: string,
    nombre: string,
    codprod: string,
    stock: int,
    capacidad: int)

  /** Product status: "A" active, "B" disabled. */
  datatype EstadoProducto = Activo | Baja

  datatype Producto = Producto(codigo: string, nombre: string, estado: EstadoProducto)

  /** A quality rubric of `rubros_dat`. */
  datatype Rubro = Rubro(codigo: string, nombre: string)

  /** An accepted range for one rubric of one product (`rubrosXproducto_dat`). */
  datatype RubroXProducto = RubroXProducto(
    codigorub: string,
    codigoprod: string,
    valmin: int,
    valmax: int)

  /** The operation is one of the day's quotas. */
  predicate DeHoy(op: Operacion, hoy: string)
  {
    op.fechacup == hoy
  }

  /** Weights recorded so far are consistent: a gross-weighed truck has a
      positive gross weight, and a finished one a positive tare below it. */
  predicate PesajeCoherente(op: Operacion)
  {
    (op.estado == B ==> op.bruto > 0) &&
    (op.estado == F ==> 0 < op.tara < op.bruto)
  }

  predicate PesajesCoherentes(ops: seq<Operacion>)
  {
    forall i :: 0 <= i < |ops| ==> PesajeCoherente(ops[i])
  }

  /** No two operations share a plate and a quota date. */
  predicate ClavesUnicas(ops: seq<Operacion>)
  {
    forall i, j :: 0 <= i < j < |ops| ==>
      !(ops[i].patente == ops[j].patente && ops[i].fechacup == ops[j].fechacup)
  }

  /** Every silo holds between nothing and its capacity. */
  predicate SiloValido(s: Silo)
  {
    0 <= s.stock <= s.capacidad
  }

  predicate LedgerValido(silos: seq<Silo>)
  {
    forall i :: 0 <= i < |silos| ==> SiloValido(silos[i])
  }

  /** Silo codes identify silos. */
  predicate CodigosSiloUnicos(silos: seq<Silo>)
  {
    forall i, j :: 0 <= i < j < |silos| ==> silos[i].codsil != silos[j].codsil
  }

  function Min(a: int, b: int): int
  {
    if a <= b then a else b
  }

  function Max(a: int, b: int): int
  {
    if a >= b then a else b
  }
}
