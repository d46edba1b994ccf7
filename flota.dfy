/** Fleet management: the trucks of `flota_dat` and their maintenance
    records in `mantenimientos_dat`. */
module GestionFlota {
  import opened Domain
  import opened Seqs
  import opened Text

  datatype EstadoCamion = Disponible | EnViaje | Taller | BajaCamion

  datatype TipoCamion = Grano | Liquido | General

  /** A stored truck; `vencimientoVTV` is the inspection due date as
      `YYYY-MM-DD`, empty when none; `kmAceite` the odometer reading of the
      last oil change. */
  datatype Camion = Camion(
    patente: string,
    chofer: string,
    estado: EstadoCamion,
    tipo: TipoCamion,
    vencimientoVTV: string,
    kmAceite: int,
    latitud: string,
    longitud: string)

  /** The truck form; `vencimientoVTV` is `None` when the date was cleared. */
  datatype FormCamion = FormCamion(
    patente: string,
    chofer: string,
    estado: EstadoCamion,
    tipo: TipoCamion,
    vencimientoVTV: Option<string>,
    kmAceite: int,
    latitud: string,
    longitud: string)

  datatype TipoMantenimiento = Mecanica | Neumaticos | Aceite | Papeles | Otro

  datatype Mantenimiento = Mantenimiento(
    id: string,
    patente: string,
    fecha: string,
    tipo: TipoMantenimiento,
    descripcion: string,
    costo: int,
    kilometraje: int)

  datatype ErrorFlota =
    | PatenteInvalida
    | ChoferCorto
    | FechaObligatoria
    | KmNegativo
    | PatenteExiste
    | DatosIncompletos

  /** The truck schema, field by field; `None` when the form passes. */
  function ValidarCamion(d: FormCamion): (e: Option<ErrorFlota>)
    ensures e.None? <==> PatenteValida(d.patente) && |d.chofer| >= 3 && d.vencimientoVTV.Some? && d.kmAceite >= 0
  {
    if !PatenteValida(d.patente) then Some(PatenteInvalida)
    else if |d.chofer| < 3 then Some(ChoferCorto)
    else if d.vencimientoVTV.None? then Some(FechaObligatoria)
    else if d.kmAceite < 0 then Some(KmNegativo)
    else None
  }

  /** The record stored from the form: plate and driver upper-cased. */
  function DatosFinales(d: FormCamion): Camion
  {
    Camion(Mayusculas(d.patente), Mayusculas(d.chofer), d.estado, d.tipo,
           if d.vencimientoVTV.Some? then d.vencimientoVTV.value else "",
           d.kmAceite, d.latitud, d.longitud)
  }

  /** Every truck with the plate becomes `c`. */
  function ReemplazarCamion(flota: seq<Camion>, c: Camion): (r: seq<Camion>)
    ensures |r| == |flota|
    ensures forall i :: 0 <= i < |flota| ==> r[i] == if flota[i].patente == c.patente then c else flota[i]
  {
    if flota == [] then []
    else [if flota[0].patente == c.patente then c else flota[0]] + ReemplazarCamion(flota[1..], c)
  }

  predicate PatenteRegistrada(flota: seq<Camion>, patente: string)
  {
    exists i :: 0 <= i < |flota| && flota[i].patente == patente
  }

  /** The submit handler on data that passed the schema: an edit replaces
      the truck with the plate; an addition is refused when the plate is
      taken and otherwise appends. */
  function OnSubmit(flota: seq<Camion>, editando: bool, d: FormCamion): Result<seq<Camion>, ErrorFlota>
  {
    var c := DatosFinales(d);
    if editando then Ok(ReemplazarCamion(flota, c))
    else if PatenteRegistrada(flota, c.patente) then Err(PatenteExiste)
    else Ok(flota + [c])
  }

  /** Submitting the truck form: the schema first, then the handler. */
  function GuardarCamion(flota: seq<Camion>, editando: bool, d: FormCamion): Result<seq<Camion>, ErrorFlota>
  {
    match ValidarCamion(d)
    case Some(e) => Err(e)
    case None => OnSubmit(flota, editando, d)
  }

  /** The outcome of a truck submit: refused by the schema, or (adding) by
      a taken upper-cased plate; an addition appends the upper-cased record;
      an edit overwrites exactly the trucks with that plate. */
  lemma GuardarCamionCorrecto(flota: seq<Camion>, editando: bool, d: FormCamion)
    ensures var r := GuardarCamion(flota, editando, d);
      var c := DatosFinales(d);
      c.patente == Mayusculas(d.patente) && c.chofer == Mayusculas(d.chofer) &&
      (r.Ok? <==> ValidarCamion(d).None? && (editando || !PatenteRegistrada(flota, c.patente))) &&
      (r.Ok? && !editando ==> r.value == flota + [c]) &&
      (r.Ok? && editando ==>
         |r.value| == |flota| &&
         forall i :: 0 <= i < |flota| ==> r.value[i] == (if flota[i].patente == c.patente then c else flota[i]))
  {
  }

  /** No two trucks share a plate. */
  predicate PatentesDistintas(flota: seq<Camion>)
  {
    forall i, j :: 0 <= i < j < |flota| ==> flota[i].patente != flota[j].patente
  }

  /** Submitting, adding or editing, keeps plates distinct. */
  lemma GuardarCamionPreservaPatentes(flota: seq<Camion>, editando: bool, d: FormCamion)
    requires PatentesDistintas(flota)
    requires GuardarCamion(flota, editando, d).Ok?
    ensures PatentesDistintas(GuardarCamion(flota, editando, d).value)
  {
    var r := GuardarCamion(flota, editando, d).value;
    var c := DatosFinales(d);
    if !editando {
      assert r == flota + [c];
      forall i, j | 0 <= i < j < |r| ensures r[i].patente != r[j].patente {
        if j == |flota| {
          assert r[i] == flota[i];
        } else {
          assert r[i] == flota[i] && r[j] == flota[j];
        }
      }
    }
  }

  /** The quick state change: every truck with the plate gets the new state. */
  function CambioRapidoEstado(flota: seq<Camion>, patente: string, nuevo: EstadoCamion): (r: seq<Camion>)
    ensures |r| == |flota|
    ensures forall i :: 0 <= i < |flota| ==>
      r[i] == if flota[i].patente == patente then flota[i].(estado := nuevo) else flota[i]
  {
    if flota == [] then []
    else
      [if flota[0].patente == patente then flota[0].(estado := nuevo) else flota[0]]
      + CambioRapidoEstado(flota[1..], patente, nuevo)
  }

  /** A quick state change touches only `estado`, and only of the trucks
      with the plate; it leaves plates distinct. */
  lemma CambioRapidoSoloEstado(flota: seq<Camion>, patente: string, nuevo: EstadoCamion)
    ensures var r := CambioRapidoEstado(flota, patente, nuevo);
      (forall i :: 0 <= i < |flota| ==> r[i] == flota[i].(estado := r[i].estado)) &&
      (forall i :: 0 <= i < |flota| && flota[i].patente == patente ==> r[i].estado == nuevo) &&
      (forall i :: 0 <= i < |flota| && flota[i].patente != patente ==> r[i] == flota[i]) &&
      (PatentesDistintas(flota) ==> PatentesDistintas(r))
  {
  }

  /** The state after a delete is confirmed: the two tables and whether the
      form is cleared. */
  datatype Eliminacion = Eliminacion(flota: seq<Camion>, mantenimientos: seq<Mantenimiento>, limpiarForm: bool)

  function SinCamion(flota: seq<Camion>, p: string): (r: seq<Camion>)
    ensures forall c :: c in r <==> c in flota && c.patente != p
    ensures forall c :: multiset(r)[c] == if c.patente != p then multiset(flota)[c] else 0
  {
    var otro := (c: Camion) => c.patente != p;
    FilterMultiset(flota, otro);
    Filter(flota, otro)
  }

  function SinMantenimientos(mants: seq<Mantenimiento>, p: string): (r: seq<Mantenimiento>)
    ensures forall m :: m in r <==> m in mants && m.patente != p
    ensures forall m :: multiset(r)[m] == if m.patente != p then multiset(mants)[m] else 0
  {
    var otro := (m: Mantenimiento) => m.patente != p;
    FilterMultiset(mants, otro);
    Filter(mants, otro)
  }

  /** The confirmed delete of the truck chosen in the dialog (`None` or an
      empty plate: nothing to delete); the form is cleared when it was
      editing that truck. */
  function ConfirmarEliminacion(flota: seq<Camion>, mants: seq<Mantenimiento>, patente: Option<string>,
                                editando: bool, patenteActual: string): Eliminacion
  {
    if patente.Some? && patente.value != "" then
      var p := patente.value;
      Eliminacion(SinCamion(flota, p), SinMantenimientos(mants, p), editando && patenteActual == p)
    else Eliminacion(flota, mants, false)
  }

  /** Deleting a truck removes it with its whole maintenance history and
      nothing else; without a plate nothing changes. */
  lemma EliminacionEnCascada(flota: seq<Camion>, mants: seq<Mantenimiento>, patente: Option<string>,
                             editando: bool, patenteActual: string)
    ensures var e := ConfirmarEliminacion(flota, mants, patente, editando, patenteActual);
      (patente.Some? && patente.value != "" ==>
         (forall c :: c in e.flota <==> c in flota && c.patente != patente.value) &&
         (forall m :: m in e.mantenimientos <==> m in mants && m.patente != patente.value) &&
         (forall c: Camion :: c.patente != patente.value ==> multiset(e.flota)[c] == multiset(flota)[c]) &&
         (forall m: Mantenimiento :: m.patente != patente.value ==> multiset(e.mantenimientos)[m] == multiset(mants)[m]) &&
         (e.limpiarForm <==> editando && patenteActual == patente.value)) &&
      (!(patente.Some? && patente.value != "") ==> e == Eliminacion(flota, mants, false))
  {
  }

  /** The maintenance dialog's fields: `costo` and `km` are number fields
      (`None` when empty, which `Number` reads as 0). */
  datatype FormMantenimiento = FormMantenimiento(
    fecha: string,
    tipo: TipoMantenimiento,
    descripcion: string,
    costo: Option<int>,
    km: Option<int>)

  function NumeroDe(v: Option<int>): int
  {
    if v.Some? then v.value else 0
  }

  /** The state after saving a maintenance record: both tables and the
      dialog's copy of the truck. */
  datatype Guardado = Guardado(flota: seq<Camion>, mantenimientos: seq<Mantenimiento>, camion: Camion)

  /** Every truck with the plate gets the new oil-change reading. */
  function ActualizarKm(flota: seq<Camion>, patente: string, km: int): (r: seq<Camion>)
    ensures |r| == |flota|
    ensures forall i :: 0 <= i < |flota| ==>
      r[i] == if flota[i].patente == patente then flota[i].(kmAceite := km) else flota[i]
  {
    if flota == [] then []
    else
      [if flota[0].patente == patente then flota[0].(kmAceite := km) else flota[0]]
      + ActualizarKm(flota[1..], patente, km)
  }

  /** Saving maintenance for the truck whose history is open (`camion`,
      the dialog's copy): description and cost are required; the record is
      put first; the truck's reading moves only forward. `id` stands for
      the clock-based identifier. */
  function GuardarMantenimiento(flota: seq<Camion>, mants: seq<Mantenimiento>, camion: Option<Camion>,
                                f: FormMantenimiento, id: string): Option<Result<Guardado, ErrorFlota>>
  {
    if camion.None? then None
    else if f.descripcion == "" || f.costo.None? then Some(Err(DatosIncompletos))
    else
      var c := camion.value;
      var km := NumeroDe(f.km);
      var nuevo := Mantenimiento(id, c.patente, f.fecha, f.tipo, Mayusculas(f.descripcion), f.costo.value, km);
      if km > c.kmAceite then
        Some(Ok(Guardado(ActualizarKm(flota, c.patente, km), [nuevo] + mants, c.(kmAceite := km))))
      else
        Some(Ok(Guardado(flota, [nuevo] + mants, c)))
  }

  /** A saved record goes first with the upper-cased description; the
      stored history is kept after it; the dialog's copy of the truck ends
      with the larger of its reading and the typed one. */
  lemma GuardarMantenimientoCorrecto(flota: seq<Camion>, mants: seq<Mantenimiento>, camion: Option<Camion>,
                                     f: FormMantenimiento, id: string)
    ensures var g := GuardarMantenimiento(flota, mants, camion, f, id);
      (g.None? <==> camion.None?) &&
      (g.Some? ==> (g.value.Err? <==> f.descripcion == "" || f.costo.None?)) &&
      (g.Some? && g.value.Ok? ==>
         var s := g.value.value;
         |s.mantenimientos| == |mants| + 1 && s.mantenimientos[1..] == mants &&
         s.mantenimientos[0].patente == camion.value.patente &&
         s.mantenimientos[0].descripcion == Mayusculas(f.descripcion) &&
         s.mantenimientos[0].costo == f.costo.value &&
         s.mantenimientos[0].kilometraje == NumeroDe(f.km) &&
         s.camion == camion.value.(kmAceite := Max(camion.value.kmAceite, NumeroDe(f.km))))
  {
    var g := GuardarMantenimiento(flota, mants, camion, f, id);
    if g.Some? && g.value.Ok? {
      var s := g.value.value;
      assert s.mantenimientos[1..] == mants;
    }
  }

  /** The odometer high-water mark: when the dialog's copy is the stored
      truck and plates are distinct, saving never lowers any truck's
      reading, raises the selected truck's to the larger of the two, and
      leaves every other truck alone. */
  lemma KmNuncaBaja(flota: seq<Camion>, mants: seq<Mantenimiento>, c: Camion, f: FormMantenimiento, id: string)
    requires c in flota && PatentesDistintas(flota)
    requires GuardarMantenimiento(flota, mants, Some(c), f, id).value.Ok?
    ensures var r := GuardarMantenimiento(flota, mants, Some(c), f, id).value.value.flota;
      |r| == |flota| &&
      (forall i :: 0 <= i < |flota| ==> r[i].kmAceite >= flota[i].kmAceite) &&
      (forall i :: 0 <= i < |flota| && flota[i].patente == c.patente ==>
         r[i] == flota[i].(kmAceite := Max(flota[i].kmAceite, NumeroDe(f.km)))) &&
      (forall i :: 0 <= i < |flota| && flota[i].patente != c.patente ==> r[i] == flota[i])
  {
    var k :| 0 <= k < |flota| && flota[k] == c;
  }

  /** Deleting a maintenance record, once the user confirms, removes the
      records with that id and nothing else. */
  function EliminarMantenimiento(mants: seq<Mantenimiento>, id: string, confirmado: bool): (r: seq<Mantenimiento>)
    ensures !confirmado ==> r == mants
    ensures confirmado ==> forall m :: m in r <==> m in mants && m.id != id
    ensures confirmado ==> forall m :: multiset(r)[m] == if m.id != id then multiset(mants)[m] else 0
  {
    if confirmado then
      var otro := (m: Mantenimiento) => m.id != id;
      FilterMultiset(mants, otro);
      Filter(mants, otro)
    else mants
  }

  datatype EstadoVTV = Normal | Vencido | Alerta | VtvOk

  /** The inspection badge, from the due date and the whole number of days
      left until it (taken as given). */
  function VerificarVencimiento(vtv: string, difDias: int): (r: EstadoVTV)
    ensures r == Normal <==> vtv == ""
    ensures r == Vencido <==> vtv != "" && difDias < 0
    ensures r == Alerta <==> vtv != "" && 0 <= difDias < 30
    ensures r == VtvOk <==> vtv != "" && difDias >= 30
  {
    if vtv == "" then Normal
    else if difDias < 0 then Vencido
    else if difDias < 30 then Alerta
    else VtvOk
  }

  datatype FiltroEstado = Todos | Solo(estado: EstadoCamion)

  predicate CoincideFiltro(c: Camion, busqueda: string, filtro: FiltroEstado)
  {
    (Contiene(c.patente, Mayusculas(busqueda)) || Contiene(c.chofer, Mayusculas(busqueda))) &&
    (filtro == Todos || c.estado == filtro.estado)
  }

  function Coincide(busqueda: string, filtro: FiltroEstado): Camion -> bool
  {
    c => CoincideFiltro(c, busqueda, filtro)
  }

  /** The list shown: trucks whose plate or driver contains the upper-cased
      search text, in the chosen state, in stored order. */
  function FlotaFiltrada(flota: seq<Camion>, busqueda: string, filtro: FiltroEstado): (r: seq<Camion>)
    ensures forall c :: c in r <==> c in flota && CoincideFiltro(c, busqueda, filtro)
    ensures forall c :: multiset(r)[c] == if CoincideFiltro(c, busqueda, filtro) then multiset(flota)[c] else 0
  {
    FilterMultiset(flota, Coincide(busqueda, filtro));
    Filter(flota, Coincide(busqueda, filtro))
  }

  /** `t` occurs somewhere in `s`. */
  ghost predicate Aparece(s: string, t: string)
  {
    exists k :: OcurreEn(s, t, k)
  }

  /** A truck is listed exactly when the upper-cased search text occurs in
      its plate or its driver and its state passes the filter. */
  lemma FlotaFiltradaSii(flota: seq<Camion>, busqueda: string, filtro: FiltroEstado, c: Camion)
    ensures c in FlotaFiltrada(flota, busqueda, filtro) <==>
      c in flota &&
      (Aparece(c.patente, Mayusculas(busqueda)) || Aparece(c.chofer, Mayusculas(busqueda))) &&
      (filtro == Todos || c.estado == filtro.estado)
  {
    var q := Mayusculas(busqueda);
    ContieneSii(c.patente, q);
    ContieneSii(c.chofer, q);
  }

  /** An empty search with every state shows the whole fleet. */
  lemma FlotaSinFiltro(flota: seq<Camion>)
    ensures FlotaFiltrada(flota, "", Todos) == flota
  {
    forall i | 0 <= i < |flota| ensures Coincide("", Todos)(flota[i]) {
      assert EsPrefijo(Mayusculas(""), flota[i].patente);
    }
    FilterTodos(flota, Coincide("", Todos));
  }
}
