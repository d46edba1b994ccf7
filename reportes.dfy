/** Reports: how many quotas of the period were received or rejected, and
    per product how many operations, rejections and net kilograms. */
module Reportes {
  import opened Domain
  import opened Seqs

  datatype Periodo = Hoy | Todo

  function DelDia(hoy: string): Operacion -> bool
  {
    (op: Operacion) => op.fechacup == hoy
  }

  /** The operations of the period: today's, or all of them. */
  function OpsFiltradas(ops: seq<Operacion>, periodo: Periodo, hoy: string): (r: seq<Operacion>)
    ensures periodo == Todo ==> r == ops
    ensures periodo == Hoy ==> forall op :: op in r <==> op in ops && op.fechacup == hoy
    ensures periodo == Hoy ==> forall op :: multiset(r)[op] == if op.fechacup == hoy then multiset(ops)[op] else 0
  {
    if periodo == Todo then ops
    else
      FilterMultiset(ops, DelDia(hoy));
      Filter(ops, DelDia(hoy))
  }

  /** Received: past the gate check-in and not rejected. */
  predicate Recibido(op: Operacion)
  {
    op.estado != P && op.estado != R
  }

  predicate Rechazado(op: Operacion)
  {
    op.estado == R
  }

  predicate Pendiente(op: Operacion)
  {
    op.estado == P
  }

  predicate NoRecibido(op: Operacion)
  {
    op.estado == P || op.estado == R
  }

  function CantRecibidos(ops: seq<Operacion>): nat
  {
    Count(ops, Recibido)
  }

  function CantRechazados(ops: seq<Operacion>): nat
  {
    Count(ops, Rechazado)
  }

  function CantPendientes(ops: seq<Operacion>): nat
  {
    Count(ops, Pendiente)
  }

  /** Every quota of the period is received, rejected or pending, and only
      one of them; so received plus rejected never exceeds the quotas. */
  lemma RecibidosMasRechazados(ops: seq<Operacion>)
    ensures CantRecibidos(ops) + CantRechazados(ops) + CantPendientes(ops) == |ops|
    ensures CantRecibidos(ops) + CantRechazados(ops) <= |ops|
  {
    CountDisjoint(ops, Rechazado, Pendiente, NoRecibido);
    CountComplement(ops, Recibido, NoRecibido);
  }

  /** One row of the per-product table. */
  datatype Estadistica = Estadistica(nombre: string, cantidad: nat, rechazados: nat, neto: int)

  function DelProducto(codigo: string): Operacion -> bool
  {
    (op: Operacion) => op.codprod == codigo
  }

  predicate Finalizada(op: Operacion)
  {
    op.estado == F
  }

  /** Net kilograms delivered by a list of operations. */
  function SumaNeto(ops: seq<Operacion>): int
  {
    if ops == [] then 0 else (ops[0].bruto - ops[0].tara) + SumaNeto(ops[1..])
  }

  function EstadisticaDe(ops: seq<Operacion>, prod: Producto): Estadistica
  {
    var delProd := Filter(ops, DelProducto(prod.codigo));
    Estadistica(prod.nombre, |delProd|, Count(delProd, Rechazado), SumaNeto(Filter(delProd, Finalizada)))
  }

  /** One row per product, in the order of the product list. */
  function EstadisticasPorProducto(ops: seq<Operacion>, prods: seq<Producto>): (r: seq<Estadistica>)
    ensures |r| == |prods|
    ensures forall i :: 0 <= i < |prods| ==> r[i] == EstadisticaDe(ops, prods[i])
  {
    if prods == [] then []
    else [EstadisticaDe(ops, prods[0])] + EstadisticasPorProducto(ops, prods[1..])
  }

  /** With every finished operation's tare below its gross weight, the net
      kilograms are at least one per finished operation, hence never
      negative. */
  lemma {:induction false} SumaNetoPositiva(ops: seq<Operacion>)
    requires forall i :: 0 <= i < |ops| ==> ops[i].tara < ops[i].bruto
    ensures SumaNeto(ops) >= |ops|
  {
    if ops != [] {
      SumaNetoPositiva(ops[1..]);
    }
  }

  /** Each row counts the product's operations of the period and, among
      them, the rejected ones; its net total is that of the product's
      finished operations, which is at least their number when weights are
      consistent. */
  lemma EstadisticaCorrecta(ops: seq<Operacion>, prods: seq<Producto>, i: nat)
    requires i < |prods|
    ensures var e := EstadisticasPorProducto(ops, prods)[i];
      var delProd := Filter(ops, DelProducto(prods[i].codigo));
      e.nombre == prods[i].nombre &&
      (forall op :: op in delProd <==> op in ops && op.codprod == prods[i].codigo) &&
      e.cantidad == |delProd| <= |ops| &&
      e.rechazados <= e.cantidad &&
      (PesajesCoherentes(ops) ==> e.neto >= Count(delProd, Finalizada) >= 0)
  {
    var delProd := Filter(ops, DelProducto(prods[i].codigo));
    var fin := Filter(delProd, Finalizada);
    if PesajesCoherentes(ops) {
      forall j | 0 <= j < |fin| ensures fin[j].tara < fin[j].bruto {
        assert fin[j] in delProd;
        var k :| 0 <= k < |ops| && ops[k] == fin[j];
        assert PesajeCoherente(ops[k]);
      }
      SumaNetoPositiva(fin);
    }
  }
}
