/** Silo monitoring: the manual stock-out on the silo ledger and the list of
    rejected trucks. */
module SilosYRechazos {
  import opened Domain
  import opened Seqs

  datatype ErrorSalida = CantidadInvalida | StockInsuficiente(disponible: int)

  /** The two checks on the amount typed for the silo selected in the panel
      (`None` for an empty field); on success the amount to take out. */
  function ValidarSalida(sel: Silo, cantidad: Option<int>): (r: Result<int, ErrorSalida>)
    ensures r.Ok? <==> cantidad.Some? && 0 < cantidad.value <= sel.stock
    ensures r.Ok? ==> r.value == cantidad.value
  {
    if cantidad.None? || cantidad.value <= 0 then Err(CantidadInvalida)
    else if cantidad.value > sel.stock then Err(StockInsuficiente(sel.stock))
    else Ok(cantidad.value)
  }

  /** The confirmed stock-out: every silo with the selected code loses
      `kilos`; all other silos are kept. */
  function AplicarSalida(silos: seq<Silo>, codsil: string, kilos: int): (r: seq<Silo>)
    ensures |r| == |silos|
    ensures forall i :: 0 <= i < |silos| ==>
      r[i] == if silos[i].codsil == codsil then silos[i].(stock := silos[i].stock - kilos) else silos[i]
  {
    if silos == [] then []
    else
      [if silos[0].codsil == codsil then silos[0].(stock := silos[0].stock - kilos) else silos[0]]
      + AplicarSalida(silos[1..], codsil, kilos)
  }

  /** The stock-out handler: validate, then (once confirmed) decrement. */
  function ConfirmarSalida(silos: seq<Silo>, sel: Silo, cantidad: Option<int>): Result<seq<Silo>, ErrorSalida>
  {
    match ValidarSalida(sel, cantidad)
    case Err(e) => Err(e)
    case Ok(kilos) => Ok(AplicarSalida(silos, sel.codsil, kilos))
  }

  /** A stock-out changes only the stock of the selected silo, by exactly the
      amount; when the selection is the silo as stored, its new stock lies
      between zero and the old stock. */
  lemma SalidaCorrecta(silos: seq<Silo>, sel: Silo, cantidad: Option<int>)
    requires ConfirmarSalida(silos, sel, cantidad).Ok?
    ensures var r := ConfirmarSalida(silos, sel, cantidad).value;
      |r| == |silos| &&
      (forall i :: 0 <= i < |silos| ==> r[i] == silos[i].(stock := r[i].stock)) &&
      (forall i :: 0 <= i < |silos| && silos[i].codsil != sel.codsil ==> r[i] == silos[i]) &&
      (forall i :: 0 <= i < |silos| && silos[i].codsil == sel.codsil ==>
         r[i].stock == silos[i].stock - cantidad.value < silos[i].stock) &&
      (forall i :: 0 <= i < |silos| && silos[i] == sel ==> 0 <= r[i].stock)
  {
  }

  /** With silo codes unique and the selection taken from the ledger, a
      stock-out keeps every silo between empty and full. */
  lemma SalidaPreservaLedger(silos: seq<Silo>, sel: Silo, cantidad: Option<int>)
    requires LedgerValido(silos) && CodigosSiloUnicos(silos) && sel in silos
    requires ConfirmarSalida(silos, sel, cantidad).Ok?
    ensures LedgerValido(ConfirmarSalida(silos, sel, cantidad).value)
  {
    var k :| 0 <= k < |silos| && silos[k] == sel;
    var r := AplicarSalida(silos, sel.codsil, cantidad.value);
    assert ConfirmarSalida(silos, sel, cantidad).value == r;
    forall i | 0 <= i < |r|
      ensures SiloValido(r[i])
    {
      if silos[i].codsil == sel.codsil {
        assert i == k;
      }
    }
  }

  /** A refused stock-out changes nothing: the handler returns before
      publishing. */
  lemma SalidaRechazada(silos: seq<Silo>, sel: Silo, cantidad: Option<int>)
    ensures cantidad.None? || cantidad.value <= 0 ==> ConfirmarSalida(silos, sel, cantidad) == Err(CantidadInvalida)
    ensures cantidad.Some? && cantidad.value > 0 && cantidad.value > sel.stock ==>
      ConfirmarSalida(silos, sel, cantidad) == Err(StockInsuficiente(sel.stock))
  {
  }

  predicate RechazadoEn(op: Operacion, fechaFiltro: string)
  {
    op.estado == R && (fechaFiltro != "" ==> op.fechacup == fechaFiltro)
  }

  /** Rejected trucks, restricted to the chosen day when one is set (an empty
      date string means no filter). */
  function CamionesRechazados(ops: seq<Operacion>, fechaFiltro: string): (r: seq<Operacion>)
    ensures forall op :: op in r <==> op in ops && op.estado == R && (fechaFiltro != "" ==> op.fechacup == fechaFiltro)
    ensures forall op :: multiset(r)[op] == if RechazadoEn(op, fechaFiltro) then multiset(ops)[op] else 0
  {
    var p := op => RechazadoEn(op, fechaFiltro);
    FilterMultiset(ops, p);
    Filter(ops, p)
  }
}
