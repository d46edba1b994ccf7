/** Quality inspection: the rubric values typed for an arrived truck decide
    whether it goes on to the weighbridge (C) or is rejected (R). */
module RegistrarCalidad {
  import opened Domain
  import opened Seqs

  predicate EsperaCalidad(op: Operacion, hoy: string)
  {
    op.fechacup == hoy && op.estado == A
  }

  /** Today's trucks that arrived and wait for inspection. */
  function CamionesEsperandoCalidad(ops: seq<Operacion>, hoy: string): (r: seq<Operacion>)
    ensures forall op :: op in r <==> op in ops && op.fechacup == hoy && op.estado == A
    ensures forall op :: multiset(r)[op] == if EsperaCalidad(op, hoy) then multiset(ops)[op] else 0
  {
    var p := op => EsperaCalidad(op, hoy);
    FilterMultiset(ops, p);
    Filter(ops, p)
  }

  predicate DelProducto(r: RubroXProducto, codprod: string)
  {
    r.codigoprod == codprod
  }

  /** The rubrics evaluated for a product: its ranges, in stored order. */
  function RubrosDelProducto(rxp: seq<RubroXProducto>, codprod: string): (r: seq<RubroXProducto>)
    ensures forall x :: x in r <==> x in rxp && x.codigoprod == codprod
    ensures forall x :: multiset(r)[x] == if DelProducto(x, codprod) then multiset(rxp)[x] else 0
  {
    var p := x => DelProducto(x, codprod);
    FilterMultiset(rxp, p);
    Filter(rxp, p)
  }

  /** The form's values, by rubric code: `None` is an empty field; a code
      absent from the map reads as `undefined`, which is neither empty nor a
      number. */
  type Valores = map<string, Option<int>>

  /** The form as it opens: one empty field per rubric of the product. */
  function ValoresIniciales(rubros: seq<RubroXProducto>): (v: Valores)
    ensures forall r :: r in rubros ==> r.codigorub in v && v[r.codigorub] == None
    ensures forall k :: k in v ==> exists r :: r in rubros && r.codigorub == k
  {
    map r | r in rubros :: r.codigorub := None
  }

  predicate Vacio(r: RubroXProducto, v: Valores)
  {
    r.codigorub in v && v[r.codigorub].None?
  }

  /** Some rubric's field is empty. */
  predicate Incompleto(rubros: seq<RubroXProducto>, v: Valores)
  {
    exists i :: 0 <= i < |rubros| && Vacio(rubros[i], v)
  }

  /** A value inside the rubric's range, both bounds included. */
  predicate Correcto(r: RubroXProducto, v: Valores)
  {
    r.codigorub in v && v[r.codigorub].Some? && r.valmin <= v[r.codigorub].value <= r.valmax
  }

  function EsCorrecto(v: Valores): RubroXProducto -> bool
  {
    r => Correcto(r, v)
  }

  function EsIncorrecto(v: Valores): RubroXProducto -> bool
  {
    r => !Correcto(r, v)
  }

  function CantCorrectos(rubros: seq<RubroXProducto>, v: Valores): nat
  {
    Count(rubros, EsCorrecto(v))
  }

  function CantIncorrectos(rubros: seq<RubroXProducto>, v: Valores): nat
  {
    Count(rubros, EsIncorrecto(v))
  }

  lemma CantCorrectosSnoc(s: seq<RubroXProducto>, r: RubroXProducto, v: Valores)
    ensures CantCorrectos(s + [r], v) == CantCorrectos(s, v) + (if Correcto(r, v) then 1 else 0)
  {
    CountSnoc(s, r, EsCorrecto(v));
  }

  /** Acceptance rule: all rubrics correct, or all but one when there are
      several. */
  predicate EsAceptado(total: nat, correctos: nat)
  {
    correctos == total || (total > 1 && correctos == total - 1)
  }

  /** Writes the verdict on every operation of the plate dated today,
      whatever its state; only `estado` changes. */
  function AplicarEstado(ops: seq<Operacion>, patente: string, hoy: string, estado: Estado): (r: seq<Operacion>)
    ensures |r| == |ops|
    ensures forall i :: 0 <= i < |ops| ==>
      r[i] == if ops[i].patente == patente && ops[i].fechacup == hoy then ops[i].(estado := estado) else ops[i]
  {
    if ops == [] then []
    else
      [if ops[0].patente == patente && ops[0].fechacup == hoy then ops[0].(estado := estado) else ops[0]]
      + AplicarEstado(ops[1..], patente, hoy, estado)
  }

  datatype ResultadoCalidad = FaltanValores | Procesado(ops: seq<Operacion>, aceptado: bool)

  /** The inspection of `sel` with the typed values. */
  function Calificar(ops: seq<Operacion>, rxp: seq<RubroXProducto>, sel: Operacion, v: Valores, hoy: string): ResultadoCalidad
  {
    var rubros := RubrosDelProducto(rxp, sel.codprod);
    if Incompleto(rubros, v) then FaltanValores
    else
      var aceptado := EsAceptado(|rubros|, CantCorrectos(rubros, v));
      Procesado(AplicarEstado(ops, sel.patente, hoy, if aceptado then C else R), aceptado)
  }

  /** The handler's loop: counts, one rubric at a time, the fields whose
      value lies in range. */
  method ContarCorrectos(rubros: seq<RubroXProducto>, v: Valores) returns (contRubCorr: nat)
    ensures contRubCorr == CantCorrectos(rubros, v)
  {
    contRubCorr := 0;
    var i := 0;
    while i < |rubros|
      invariant 0 <= i <= |rubros|
      invariant contRubCorr == CantCorrectos(rubros[..i], v)
    {
      var r := rubros[i];
      assert rubros[..i + 1] == rubros[..i] + [r];
      CantCorrectosSnoc(rubros[..i], r, v);
      if r.codigorub in v && v[r.codigorub].Some? && r.valmin <= v[r.codigorub].value <= r.valmax {
        contRubCorr := contRubCorr + 1;
      }
      i := i + 1;
    }
    assert rubros[..i] == rubros;
  }

  /** The handler: refuses an incomplete form, counts the correct rubrics,
      then writes C or R. */
  method ProcesarCalidad(ops: seq<Operacion>, rxp: seq<RubroXProducto>, sel: Operacion, v: Valores, hoy: string)
    returns (res: ResultadoCalidad)
    ensures res == Calificar(ops, rxp, sel, v, hoy)
  {
    var rubrosDelProd := RubrosDelProducto(rxp, sel.codprod);
    if Incompleto(rubrosDelProd, v) {
      return FaltanValores;
    }
    var contRubCorr := ContarCorrectos(rubrosDelProd, v);
    var esAceptado := contRubCorr == |rubrosDelProd| ||
                      (|rubrosDelProd| > 1 && contRubCorr == |rubrosDelProd| - 1);
    var nuevoEstado := if esAceptado then C else R;
    res := Procesado(AplicarEstado(ops, sel.patente, hoy, nuevoEstado), esAceptado);
  }

  /** A complete form is accepted exactly when no rubric is out of range, or
      one is and the product has more than one rubric; a product without
      rubrics is always accepted. An incomplete form is refused. */
  lemma AceptacionSii(ops: seq<Operacion>, rxp: seq<RubroXProducto>, sel: Operacion, v: Valores, hoy: string)
    ensures var rubros := RubrosDelProducto(rxp, sel.codprod);
      var res := Calificar(ops, rxp, sel, v, hoy);
      (res == FaltanValores <==> Incompleto(rubros, v)) &&
      (res.Procesado? ==>
        (res.aceptado <==> CantIncorrectos(rubros, v) == 0 ||
                           (CantIncorrectos(rubros, v) == 1 && |rubros| > 1)) &&
        (rubros == [] ==> res.aceptado))
  {
    var rubros := RubrosDelProducto(rxp, sel.codprod);
    CountComplement(rubros, EsCorrecto(v), EsIncorrecto(v));
  }

  /** The verdict C or R reaches exactly the operations of the plate dated
      today; every other operation, and every field but `estado`, is kept. */
  lemma VeredictoEscrito(ops: seq<Operacion>, rxp: seq<RubroXProducto>, sel: Operacion, v: Valores, hoy: string)
    requires Calificar(ops, rxp, sel, v, hoy).Procesado?
    ensures var res := Calificar(ops, rxp, sel, v, hoy);
      |res.ops| == |ops| &&
      forall i :: 0 <= i < |ops| ==>
        res.ops[i] == ops[i].(estado := res.ops[i].estado) &&
        (ops[i].patente == sel.patente && ops[i].fechacup == hoy ==>
           res.ops[i].estado == (if res.aceptado then C else R)) &&
        (!(ops[i].patente == sel.patente && ops[i].fechacup == hoy) ==> res.ops[i] == ops[i])
  {
  }

  /** Submitting the form as it opened is refused whenever the product has
      at least one rubric. */
  lemma FormularioInicialIncompleto(ops: seq<Operacion>, rxp: seq<RubroXProducto>, sel: Operacion, hoy: string)
    requires RubrosDelProducto(rxp, sel.codprod) != []
    ensures Calificar(ops, rxp, sel, ValoresIniciales(RubrosDelProducto(rxp, sel.codprod)), hoy) == FaltanValores
  {
    var rubros := RubrosDelProducto(rxp, sel.codprod);
    assert rubros[0] in rubros;
    assert Vacio(rubros[0], ValoresIniciales(rubros));
  }

  /** The verdict keeps the recorded weights consistent and the (plate,
      date) pairs unique. */
  lemma CalidadCoherente(ops: seq<Operacion>, rxp: seq<RubroXProducto>, sel: Operacion, v: Valores, hoy: string)
    requires PesajesCoherentes(ops) && ClavesUnicas(ops)
    ensures var res := Calificar(ops, rxp, sel, v, hoy);
      res.Procesado? ==> PesajesCoherentes(res.ops) && ClavesUnicas(res.ops)
  {
  }
}
