/** Quota intake: a plate, a product and a date become a pending operation,
    unless the plate already holds a quota that day or the product is not
    active. */
module EntregaCupos {
  import opened Domain
  import opened Seqs
  import opened Text

  /** The intake form; `fecha` is the chosen day already formatted as
      `YYYY-MM-DD`, `None` when the picker was cleared. */
  datatype FormCupo = FormCupo(patente: string, codProd: string, fecha: Option<string>)

  datatype ErrorCupo =
    | PatenteInvalida        // the plate field fails its rule
    | ProductoNoElegido      // no product selected
    | FechaObligatoria       // the date field is empty
    | FechaInvalida          // the handler's own date guard
    | Duplicado              // the plate already has a quota that day
    | ProductoNoValido       // unknown or disabled product

  /** The form schema, field by field in declaration order; `None` when the
      form passes and the handler runs. */
  function ValidarEsquema(f: FormCupo): (e: Option<ErrorCupo>)
    ensures e.None? <==> PatenteValida(f.patente) && |f.codProd| >= 1 && f.fecha.Some?
    ensures e == Some(PatenteInvalida) <==> !PatenteValida(f.patente)
  {
    if !PatenteValida(f.patente) then Some(PatenteInvalida)
    else if |f.codProd| < 1 then Some(ProductoNoElegido)
    else if f.fecha.None? then Some(FechaObligatoria)
    else None
  }

  /** The canonical plate used to look for duplicates: upper-cased, with
      every white-space character removed. */
  function Normalizar(patente: string): (n: string)
    ensures |n| <= |patente|
    ensures forall i :: 0 <= i < |n| ==> !EsEspacio(n[i])
  {
    SinEspacios(Mayusculas(patente))
  }

  /** Some stored operation, in any state, has the plate (white space
      ignored) on that day. */
  predicate ExisteCupo(ops: seq<Operacion>, normalizada: string, fecha: string)
  {
    exists i :: 0 <= i < |ops| && SinEspacios(ops[i].patente) == normalizada && ops[i].fechacup == fecha
  }

  predicate ProductoActivo(prods: seq<Producto>, codigo: string)
  {
    exists i :: 0 <= i < |prods| && prods[i].codigo == codigo && prods[i].estado == Activo
  }

  /** The products offered by the selector: the active ones, in order. */
  function ProductosActivos(prods: seq<Producto>): (r: seq<Producto>)
    ensures forall p :: p in r <==> p in prods && p.estado == Activo
    ensures forall p :: multiset(r)[p] == if p.estado == Activo then multiset(prods)[p] else 0
  {
    var activo := (p: Producto) => p.estado == Activo;
    FilterMultiset(prods, activo);
    Filter(prods, activo)
  }

  /** The pending operation an accepted form creates: the plate upper-cased
      but with its white space kept, no weights. */
  function NuevaOperacion(f: FormCupo, fecha: string): Operacion
  {
    Operacion(Mayusculas(f.patente), f.codProd, fecha, P, 0, 0)
  }

  /** The submit handler on data that reached it: date guard, duplicate
      check, product check, then append. */
  function OnSubmit(ops: seq<Operacion>, prods: seq<Producto>, f: FormCupo): Result<seq<Operacion>, ErrorCupo>
  {
    if f.fecha.None? then Err(FechaInvalida)
    else if ExisteCupo(ops, Normalizar(f.patente), f.fecha.value) then Err(Duplicado)
    else if !ProductoActivo(prods, f.codProd) then Err(ProductoNoValido)
    else Ok(ops + [NuevaOperacion(f, f.fecha.value)])
  }

  /** Submitting the form: the schema first, then the handler. */
  function Entregar(ops: seq<Operacion>, prods: seq<Producto>, f: FormCupo): Result<seq<Operacion>, ErrorCupo>
  {
    match ValidarEsquema(f)
    case Some(e) => Err(e)
    case None => OnSubmit(ops, prods, f)
  }

  /** The outcome of intake, case by case: the schema's verdict, then a
      duplicate (whatever the product), then an inactive product, and
      otherwise exactly one pending operation appended after the stored
      ones. */
  lemma EntregaSii(ops: seq<Operacion>, prods: seq<Producto>, f: FormCupo)
    ensures var r := Entregar(ops, prods, f);
      var pasa := ValidarEsquema(f).None?;
      var dup := pasa && ExisteCupo(ops, Normalizar(f.patente), f.fecha.value);
      (!pasa ==> r == Err(ValidarEsquema(f).value)) &&
      (dup ==> r == Err(Duplicado)) &&
      (pasa && !dup && !ProductoActivo(prods, f.codProd) ==> r == Err(ProductoNoValido)) &&
      (r.Ok? <==> pasa && !dup && ProductoActivo(prods, f.codProd))
  {
  }

  /** An accepted quota appends one operation at the end and keeps the
      stored ones: state P, no weights, the upper-cased plate, the form's
      product and date; its plate, stripped, is the normalised plate, which
      is six or seven upper-case letters and digits. */
  lemma EntregaAgrega(ops: seq<Operacion>, prods: seq<Producto>, f: FormCupo)
    requires Entregar(ops, prods, f).Ok?
    ensures var r := Entregar(ops, prods, f).value;
      |r| == |ops| + 1 && r[..|ops|] == ops &&
      r[|ops|].estado == P && r[|ops|].bruto == 0 && r[|ops|].tara == 0 &&
      r[|ops|].patente == Mayusculas(f.patente) &&
      r[|ops|].codprod == f.codProd && Some(r[|ops|].fechacup) == f.fecha &&
      SinEspacios(r[|ops|].patente) == Normalizar(f.patente) &&
      (|Normalizar(f.patente)| == 6 || |Normalizar(f.patente)| == 7) &&
      TodoCanonico(Normalizar(f.patente))
  {
    var r := Entregar(ops, prods, f).value;
    assert r == ops + [NuevaOperacion(f, f.fecha.value)];
    PatenteNormalizada(f.patente);
  }

  /** No two operations of one day share a plate once white space is
      ignored: the rule the duplicate check enforces. */
  predicate PatentesDelDiaUnicas(ops: seq<Operacion>)
  {
    forall i, j :: 0 <= i < j < |ops| ==>
      !(SinEspacios(ops[i].patente) == SinEspacios(ops[j].patente) && ops[i].fechacup == ops[j].fechacup)
  }

  /** The rule on stripped plates implies uniqueness of (plate, date). */
  lemma PatentesUnicasImplicaClaves(ops: seq<Operacion>)
    requires PatentesDelDiaUnicas(ops)
    ensures ClavesUnicas(ops)
  {
    forall i, j | 0 <= i < j < |ops|
      ensures !(ops[i].patente == ops[j].patente && ops[i].fechacup == ops[j].fechacup)
    {
      if ops[i].patente == ops[j].patente {
        assert SinEspacios(ops[i].patente) == SinEspacios(ops[j].patente);
      }
    }
  }

  /** Intake keeps plates unique per day, (plate, date) keys unique, and
      the recorded weights consistent. */
  lemma EntregaPreservaUnicidad(ops: seq<Operacion>, prods: seq<Producto>, f: FormCupo)
    requires PatentesDelDiaUnicas(ops) && PesajesCoherentes(ops)
    requires Entregar(ops, prods, f).Ok?
    ensures var r := Entregar(ops, prods, f).value;
      PatentesDelDiaUnicas(r) && ClavesUnicas(r) && PesajesCoherentes(r)
  {
    var r := Entregar(ops, prods, f).value;
    var nueva := NuevaOperacion(f, f.fecha.value);
    assert r == ops + [nueva];
    forall i, j | 0 <= i < j < |r|
      ensures !(SinEspacios(r[i].patente) == SinEspacios(r[j].patente) && r[i].fechacup == r[j].fechacup)
    {
      if j == |ops| {
        assert r[i] == ops[i];
        assert !(SinEspacios(ops[i].patente) == Normalizar(f.patente) && ops[i].fechacup == f.fecha.value);
      } else {
        assert r[i] == ops[i] && r[j] == ops[j];
      }
    }
    PatentesUnicasImplicaClaves(r);
  }

  /** Two forms for the same truck that differ only in letter case and white
      space are the same quota: after one is accepted the other is refused
      as a duplicate. */
  lemma SegundoCupoDuplicado(ops: seq<Operacion>, prods: seq<Producto>, f: FormCupo, g: FormCupo)
    requires Entregar(ops, prods, f).Ok?
    requires ValidarEsquema(g).None? && g.fecha == f.fecha
    requires Normalizar(g.patente) == Normalizar(f.patente)
    ensures Entregar(Entregar(ops, prods, f).value, prods, g) == Err(Duplicado)
  {
    var r := Entregar(ops, prods, f).value;
    assert r == ops + [NuevaOperacion(f, f.fecha.value)];
    assert r[|ops|] == NuevaOperacion(f, f.fecha.value);
    assert SinEspacios(r[|ops|].patente) == Normalizar(g.patente);
  }
}
