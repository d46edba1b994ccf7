/** The main menu's counters: today's quotas by stage and the silos close to
    full. */
module MenuDashboard {
  import opened Domain
  import opened Seqs
  import Pesaje

  predicate DeHoyEn(op: Operacion, hoy: string) { op.fechacup == hoy }

  predicate EnPuertaEn(op: Operacion, hoy: string) { op.fechacup == hoy && op.estado == P }

  predicate ParaCalidadEn(op: Operacion, hoy: string) { op.fechacup == hoy && op.estado == A }

  predicate ParaBalanzaEn(op: Operacion, hoy: string) { op.fechacup == hoy && (op.estado == C || op.estado == B) }

  function CuposHoy(ops: seq<Operacion>, hoy: string): nat
  {
    Count(ops, op => DeHoyEn(op, hoy))
  }

  function EnPuerta(ops: seq<Operacion>, hoy: string): nat
  {
    Count(ops, op => EnPuertaEn(op, hoy))
  }

  function ParaCalidad(ops: seq<Operacion>, hoy: string): nat
  {
    Count(ops, op => ParaCalidadEn(op, hoy))
  }

  function ParaBalanza(ops: seq<Operacion>, hoy: string): nat
  {
    Count(ops, op => ParaBalanzaEn(op, hoy))
  }

  /** The three stage counters never add up to more than today's quotas. */
  lemma EtapasAcotadas(ops: seq<Operacion>, hoy: string)
    ensures EnPuerta(ops, hoy) + ParaCalidad(ops, hoy) + ParaBalanza(ops, hoy) <= CuposHoy(ops, hoy)
  {
    var pa := (op: Operacion) => EnPuertaEn(op, hoy) || ParaCalidadEn(op, hoy);
    var pab := (op: Operacion) => pa(op) || ParaBalanzaEn(op, hoy);
    CountDisjoint(ops, op => EnPuertaEn(op, hoy), op => ParaCalidadEn(op, hoy), pa);
    CountDisjoint(ops, pa, op => ParaBalanzaEn(op, hoy), pab);
    CountMono(ops, pab, op => DeHoyEn(op, hoy));
  }

  /** The weighbridge counter is the length of the weighbridge queue. */
  lemma ParaBalanzaEsCola(ops: seq<Operacion>, hoy: string)
    ensures ParaBalanza(ops, hoy) == |Pesaje.CamionesEnEspera(ops, hoy)|
  {
    FilterSame(ops, op => ParaBalanzaEn(op, hoy), op => Pesaje.EnEspera(op, hoy));
  }

  /** The critical rule on exact quotients: more than nine tenths full. */
  predicate SiloCritico(s: Silo)
  {
    s.capacidad > 0 && 10 * s.stock > 9 * s.capacidad
  }

  /** The integer rule is the quotient rule `stock / capacidad > 0.9`. */
  lemma SiloCriticoCociente(s: Silo)
    requires s.capacidad > 0
    ensures SiloCritico(s) <==> (s.stock as real) / (s.capacidad as real) > 0.9
  {
    var c := s.capacidad as real;
    var st := s.stock as real;
    var q := st / c;
    CocienteMayor(st, c);
    assert q > 0.9 <==> st > 0.9 * c;
    assert st > 0.9 * c <==> 10.0 * st > 9.0 * c;
    assert (10 * s.stock) as real == 10.0 * st;
    assert (9 * s.capacidad) as real == 9.0 * c;
  }

  lemma CocienteMayor(x: real, c: real)
    requires c > 0.0
    ensures x / c > 0.9 <==> x > 0.9 * c
  {
    var q := x / c;
    assert q * c == x;
    if q > 0.9 {
      assert (q - 0.9) * c > 0.0;
    } else {
      assert (0.9 - q) * c >= 0.0;
    }
  }

  function SilosCriticos(silos: seq<Silo>): nat
  {
    Count(silos, SiloCritico)
  }

  /** A critical silo of a valid ledger has less than a tenth of its
      capacity free; no silo of capacity 0 counts. */
  lemma CriticoCasiLleno(silos: seq<Silo>)
    requires LedgerValido(silos)
    ensures forall i :: 0 <= i < |silos| && SiloCritico(silos[i]) ==> 10 * Pesaje.Libre(silos[i]) < silos[i].capacidad
    ensures SilosCriticos(silos) <= |silos|
  {
  }
}
