/** Gate reception: today's pending quotas, and the arrival of a truck,
    which moves its pending operation from P to A. */
module Recepcion {
  import opened Domain
  import opened Seqs

  predicate PendienteHoy(op: Operacion, hoy: string)
  {
    op.fechacup == hoy && op.estado == P
  }

  /** Today's quotas whose truck has not arrived yet. */
  function CuposPendientesHoy(ops: seq<Operacion>, hoy: string): (r: seq<Operacion>)
    ensures forall op :: op in r <==> op in ops && op.fechacup == hoy && op.estado == P
    ensures forall op :: multiset(r)[op] == if PendienteHoy(op, hoy) then multiset(ops)[op] else 0
  {
    var p := op => PendienteHoy(op, hoy);
    FilterMultiset(ops, p);
    Filter(ops, p)
  }

  /** The operations the arrival of `patente` affects. */
  predicate Arriba(op: Operacion, patente: string, hoy: string)
  {
    op.patente == patente && op.fechacup == hoy && op.estado == P
  }

  /** The confirmed arrival: every pending operation of the plate dated today
      becomes A. */
  function RegistrarArribo(ops: seq<Operacion>, patente: string, hoy: string): (r: seq<Operacion>)
    ensures |r| == |ops|
    ensures forall i :: 0 <= i < |ops| ==>
      r[i] == if Arriba(ops[i], patente, hoy) then ops[i].(estado := A) else ops[i]
  {
    if ops == [] then []
    else
      [if Arriba(ops[0], patente, hoy) then ops[0].(estado := A) else ops[0]]
      + RegistrarArribo(ops[1..], patente, hoy)
  }

  /** Arrival changes only `estado`, only from P to A, and only on the
      selected plate's quota of today; afterwards none of those is pending,
      and the truck has left today's pending list. */
  lemma ArriboCorrecto(ops: seq<Operacion>, patente: string, hoy: string)
    ensures var r := RegistrarArribo(ops, patente, hoy);
      (forall i :: 0 <= i < |ops| ==> r[i] == ops[i].(estado := r[i].estado)) &&
      (forall i :: 0 <= i < |ops| && r[i] != ops[i] ==>
         ops[i].estado == P && r[i].estado == A && ops[i].patente == patente && ops[i].fechacup == hoy) &&
      (forall op :: op in CuposPendientesHoy(r, hoy) ==> op.patente != patente)
  {
    var r := RegistrarArribo(ops, patente, hoy);
    forall i | 0 <= i < |ops|
      ensures r[i] == ops[i].(estado := r[i].estado)
      ensures r[i] != ops[i] ==> ops[i].estado == P && r[i].estado == A && ops[i].patente == patente && ops[i].fechacup == hoy
      ensures r[i].patente == patente && r[i].fechacup == hoy ==> r[i].estado != P
    {
    }
    var pendientes := CuposPendientesHoy(r, hoy);
    forall op | op in pendientes ensures op.patente != patente {
      assert op in r && op.fechacup == hoy && op.estado == P;
      var i :| 0 <= i < |r| && r[i] == op;
    }
  }

  /** Confirming the same arrival twice changes nothing the second time. */
  lemma ArriboIdempotente(ops: seq<Operacion>, patente: string, hoy: string)
    ensures RegistrarArribo(RegistrarArribo(ops, patente, hoy), patente, hoy) == RegistrarArribo(ops, patente, hoy)
  {
  }

  /** Arrival keeps the recorded weights consistent and the (plate, date)
      pairs unique. */
  lemma ArriboCoherente(ops: seq<Operacion>, patente: string, hoy: string)
    requires PesajesCoherentes(ops) && ClavesUnicas(ops)
    ensures PesajesCoherentes(RegistrarArribo(ops, patente, hoy))
    ensures ClavesUnicas(RegistrarArribo(ops, patente, hoy))
  {
  }

  /** The first product with the code, as `find` returns it. */
  function BuscarProducto(prods: seq<Producto>, codigo: string): (r: Option<Producto>)
    ensures r.None? <==> forall i :: 0 <= i < |prods| ==> prods[i].codigo != codigo
    ensures r.Some? ==> exists k :: 0 <= k < |prods| && prods[k] == r.value && r.value.codigo == codigo &&
                                    forall i :: 0 <= i < k ==> prods[i].codigo != codigo
  {
    if prods == [] then None
    else if prods[0].codigo == codigo then Some(prods[0])
    else
      var r := BuscarProducto(prods[1..], codigo);
      if r.Some? then
        var k :| 0 <= k < |prods[1..]| && prods[1..][k] == r.value && r.value.codigo == codigo &&
                 forall i :: 0 <= i < k ==> prods[1..][i].codigo != codigo;
        assert prods[k + 1] == r.value;
        r
      else r
  }

  /** The product name shown on a pending quota. */
  function NombreProducto(prods: seq<Producto>, codigo: string): string
  {
    match BuscarProducto(prods, codigo)
    case Some(p) => p.nombre
    case None => "CÓDIGO: " + codigo
  }

  /** The name shown is that of the first product with the code, and the
      code behind a "CÓDIGO: " label when no product has it. */
  lemma NombreProductoSii(prods: seq<Producto>, codigo: string, k: nat)
    requires k < |prods| && prods[k].codigo == codigo
    requires forall i :: 0 <= i < k ==> prods[i].codigo != codigo
    ensures NombreProducto(prods, codigo) == prods[k].nombre
  {
    var r := BuscarProducto(prods, codigo);
    var j :| 0 <= j < |prods| && prods[j] == r.value && r.value.codigo == codigo &&
             forall i :: 0 <= i < j ==> prods[i].codigo != codigo;
    assert j == k;
  }

  lemma NombreProductoDesconocido(prods: seq<Producto>, codigo: string)
    requires forall i :: 0 <= i < |prods| ==> prods[i].codigo != codigo
    ensures NombreProducto(prods, codigo) == "CÓDIGO: " + codigo
  {
  }
}
