/** Master data: products, rubrics, silos and the accepted range of each
    rubric for each product. One confirm handler serves the four tables: it
    checks the form, then either replaces the record being edited or appends
    a new one whose key is not taken. */
module Admin {
  import opened Domain
  import opened Seqs
  import opened Text

  /** The shared form. `min` and `max` are the number fields (`None` when
      empty); `editandoId` the key of the record being edited, `None` when
      adding. */
  datatype Formulario = Formulario(
    nombre: string,
    codigo: string,
    aux: string,
    min: Option<int>,
    max: Option<int>,
    editandoId: Option<string>)

  /** The form after a successful confirm, or a cancelled edit. */
  const FormularioVacio := Formulario("", "", "", None, None, None)

  datatype ErrorAdmin =
    | NombreRequerido
    | CodigoRequerido
    | YaExiste
    | ProductoRequerido
    | CapacidadRequerida
    | DatosIncompletos

  /** The message shown after a confirm. */
  datatype Aviso = Error(e: ErrorAdmin) | Actualizado | Registrado

  /** What the screen holds after a confirm: the table, the form, the message. */
  datatype Pantalla<T> = Pantalla(lista: seq<T>, form: Formulario, aviso: Aviso)

  /** Editing happens when the edit key is set and not empty. */
  function IdEdicion(f: Formulario): (r: Option<string>)
    ensures r.Some? <==> f.editandoId.Some? && f.editandoId.value != ""
    ensures r.Some? ==> r == f.editandoId
  {
    if f.editandoId.Some? && f.editandoId.value != "" then f.editandoId else None
  }

  /** Every record whose key is `id` becomes `payload`. */
  function Reemplazar<T, K(==)>(lista: seq<T>, clave: T -> K, id: K, payload: T): (r: seq<T>)
    ensures |r| == |lista|
    ensures forall i :: 0 <= i < |lista| ==> r[i] == if clave(lista[i]) == id then payload else lista[i]
  {
    if lista == [] then []
    else [if clave(lista[0]) == id then payload else lista[0]] + Reemplazar(lista[1..], clave, id, payload)
  }

  predicate ClaveTomada<T, K(==)>(lista: seq<T>, clave: T -> K, id: K)
  {
    exists i :: 0 <= i < |lista| && clave(lista[i]) == id
  }

  /** The confirm handler, for any table: `clave` gives a record's key,
      `editando` the key being edited, `checkId` the key looked up before an
      addition. Relations skip the name and code checks. */
  function Confirmar<T, K(==)>(lista: seq<T>, clave: T -> K, esRelacion: bool, f: Formulario,
                               editando: Option<K>, checkId: K, payload: T): Pantalla<T>
  {
    if !esRelacion && f.nombre == "" then Pantalla(lista, f, Error(NombreRequerido))
    else if !esRelacion && f.codigo == "" then Pantalla(lista, f, Error(CodigoRequerido))
    else if editando.Some? then Pantalla(Reemplazar(lista, clave, editando.value, payload), FormularioVacio, Actualizado)
    else if ClaveTomada(lista, clave, checkId) then Pantalla(lista, f, Error(YaExiste))
    else Pantalla(lista + [payload], FormularioVacio, Registrado)
  }

  /** A missing name is reported first and a missing code second (neither
      for relations); on either error the table and the form stay as they
      were. */
  lemma ConfirmarRechazos<T, K>(lista: seq<T>, clave: T -> K, esRelacion: bool, f: Formulario,
                                    editando: Option<K>, checkId: K, payload: T)
    ensures var p := Confirmar(lista, clave, esRelacion, f, editando, checkId, payload);
      (!esRelacion && f.nombre == "" ==> p.aviso == Error(NombreRequerido)) &&
      (!esRelacion && f.nombre != "" && f.codigo == "" ==> p.aviso == Error(CodigoRequerido)) &&
      (p.aviso.Error? ==> p.lista == lista && p.form == f) &&
      (p.aviso.Error? <==>
         (!esRelacion && (f.nombre == "" || f.codigo == "")) || (editando.None? && ClaveTomada(lista, clave, checkId)))
  {
  }

  /** Saving an edit replaces every record with the edited key and keeps
      every other record, in place; the key is not checked again. */
  lemma ConfirmarEdicion<T, K>(lista: seq<T>, clave: T -> K, esRelacion: bool, f: Formulario,
                                   editando: Option<K>, checkId: K, payload: T)
    requires esRelacion || (f.nombre != "" && f.codigo != "")
    requires editando.Some?
    ensures var p := Confirmar(lista, clave, esRelacion, f, editando, checkId, payload);
      p.aviso == Actualizado && p.form == FormularioVacio && |p.lista| == |lista| &&
      (forall i :: 0 <= i < |lista| && clave(lista[i]) == editando.value ==> p.lista[i] == payload) &&
      (forall i :: 0 <= i < |lista| && clave(lista[i]) != editando.value ==> p.lista[i] == lista[i])
  {
  }

  /** Adding is refused exactly when a record already has the looked-up
      key; otherwise the payload goes at the end and the form is cleared. */
  lemma ConfirmarAlta<T, K>(lista: seq<T>, clave: T -> K, esRelacion: bool, f: Formulario,
                                checkId: K, payload: T)
    requires esRelacion || (f.nombre != "" && f.codigo != "")
    ensures var p := Confirmar(lista, clave, esRelacion, f, None, checkId, payload);
      (p.aviso == Error(YaExiste) <==> ClaveTomada(lista, clave, checkId)) &&
      (!ClaveTomada(lista, clave, checkId) ==>
         p.lista == lista + [payload] && p.form == FormularioVacio && p.aviso == Registrado)
  {
  }

  /** Keys identify records. */
  predicate ClavesDistintas<T, K(==)>(lista: seq<T>, clave: T -> K)
  {
    forall i, j :: 0 <= i < j < |lista| ==> clave(lista[i]) != clave(lista[j])
  }

  /** When the looked-up key is the payload's own, confirming keeps keys
      distinct, for an addition and for an edit that keeps the key. */
  lemma ConfirmarPreservaClaves<T, K>(lista: seq<T>, clave: T -> K, esRelacion: bool, f: Formulario,
                                          editando: Option<K>, payload: T)
    requires ClavesDistintas(lista, clave)
    requires editando.Some? ==> clave(payload) == editando.value
    ensures ClavesDistintas(Confirmar(lista, clave, esRelacion, f, editando, clave(payload), payload).lista, clave)
  {
    var r := Confirmar(lista, clave, esRelacion, f, editando, clave(payload), payload).lista;
    if r == lista + [payload] {
      forall i, j | 0 <= i < j < |r| ensures clave(r[i]) != clave(r[j]) {
        if j == |lista| {
          assert r[i] == lista[i];
        } else {
          assert r[i] == lista[i] && r[j] == lista[j];
        }
      }
    }
  }

  function ClaveProducto(p: Producto): string { p.codigo }

  function ClaveRubro(r: Rubro): string { r.codigo }

  function ClaveSilo(s: Silo): string { s.codsil }

  /** Products: a new or edited product is always active. */
  function ConfirmarProducto(prods: seq<Producto>, f: Formulario): Pantalla<Producto>
  {
    Confirmar(prods, ClaveProducto, false, f, IdEdicion(f), f.codigo, Producto(f.codigo, f.nombre, Activo))
  }

  function ConfirmarRubro(rubros: seq<Rubro>, f: Formulario): Pantalla<Rubro>
  {
    Confirmar(rubros, ClaveRubro, false, f, IdEdicion(f), f.codigo, Rubro(f.codigo, f.nombre))
  }

  /** A product added from a complete form is stored active, with the
      form's code and name. */
  lemma ProductoNuevoActivo(prods: seq<Producto>, f: Formulario)
    requires ConfirmarProducto(prods, f).aviso == Registrado
    ensures ConfirmarProducto(prods, f).lista == prods + [Producto(f.codigo, f.nombre, Activo)]
    ensures f.nombre != "" && f.codigo != "" && IdEdicion(f).None?
    ensures forall i :: 0 <= i < |prods| ==> prods[i].codigo != f.codigo
  {
  }

  /** `k` is the first position holding a silo with code `id`. */
  predicate PrimerSilo(silos: seq<Silo>, id: string, k: int)
  {
    0 <= k < |silos| && silos[k].codsil == id && forall i :: 0 <= i < k ==> silos[i].codsil != id
  }

  /** The stock an edited silo keeps: that of the first silo with the
      edited code, or 0 when there is none. */
  function StockPrevio(silos: seq<Silo>, id: string): (r: int)
    ensures (forall i :: 0 <= i < |silos| ==> silos[i].codsil != id) ==> r == 0
    ensures forall k :: PrimerSilo(silos, id, k) ==> r == silos[k].stock
  {
    if silos == [] then 0
    else if silos[0].codsil == id then silos[0].stock
    else
      var r := StockPrevio(silos[1..], id);
      assert forall k :: 1 <= k < |silos| ==> silos[k] == silos[1..][k - 1];
      r
  }

  /** Silos: a product and a capacity are required first; the capacity is
      the number typed; a new silo starts empty and an edited one keeps its
      stock. */
  function ConfirmarSilo(silos: seq<Silo>, f: Formulario): Pantalla<Silo>
  {
    if f.aux == "" then Pantalla(silos, f, Error(ProductoRequerido))
    else if f.min.None? then Pantalla(silos, f, Error(CapacidadRequerida))
    else
      var stock := if IdEdicion(f).Some? then StockPrevio(silos, IdEdicion(f).value) else 0;
      Confirmar(silos, ClaveSilo, false, f, IdEdicion(f), f.codigo, Silo(f.codigo, f.nombre, f.aux, stock, f.min.value))
  }

  /** The silo form's checks come in order (product, capacity, name, code)
      and leave the table alone; a new silo is appended empty with the typed
      capacity; an edit keeps the stock of the silo being edited. */
  lemma ConfirmarSiloCorrecto(silos: seq<Silo>, f: Formulario)
    ensures var p := ConfirmarSilo(silos, f);
      (f.aux == "" ==> p.aviso == Error(ProductoRequerido)) &&
      (f.aux != "" && f.min.None? ==> p.aviso == Error(CapacidadRequerida)) &&
      (p.aviso.Error? ==> p.lista == silos) &&
      (p.aviso == Registrado ==>
         p.lista == silos + [Silo(f.codigo, f.nombre, f.aux, 0, f.min.value)]) &&
      (p.aviso == Actualizado ==>
         forall k :: 0 <= k < |silos| && silos[k].codsil == f.editandoId.value ==>
           p.lista[k] == Silo(f.codigo, f.nombre, f.aux, StockPrevio(silos, f.editandoId.value), f.min.value))
  {
  }

  /** The key shown for, edited by and deleted by a relation:
      `<product>-<rubric>`. */
  function ClaveRelacion(r: RubroXProducto): string
  {
    r.codigoprod + "-" + r.codigorub
  }

  /** Relations: product, rubric and both bounds are required; the lookup
      and the edit go by the composite key. */
  function ConfirmarRelacion(rxp: seq<RubroXProducto>, f: Formulario): Pantalla<RubroXProducto>
  {
    if f.aux == "" || f.codigo == "" || f.min.None? || f.max.None? then Pantalla(rxp, f, Error(DatosIncompletos))
    else
      var payload := RubroXProducto(f.codigo, f.aux, f.min.value, f.max.value);
      Confirmar(rxp, ClaveRelacion, true, f, IdEdicion(f), ClaveRelacion(payload), payload)
  }

  /** The pair that identifies a relation. */
  function ParRelacion(r: RubroXProducto): (string, string)
  {
    (r.codigoprod, r.codigorub)
  }

  /** Relations with the lookup going by the (product, rubric) pair. */
  function ConfirmarRelacionPar(rxp: seq<RubroXProducto>, f: Formulario, editando: Option<(string, string)>): Pantalla<RubroXProducto>
  {
    if f.aux == "" || f.codigo == "" || f.min.None? || f.max.None? then Pantalla(rxp, f, Error(DatosIncompletos))
    else
      var payload := RubroXProducto(f.codigo, f.aux, f.min.value, f.max.value);
      Confirmar(rxp, ParRelacion, true, f, editando, ParRelacion(payload), payload)
  }

  /** Adding a relation by pair is refused exactly when that product already
      has a range for that rubric. */
  lemma AltaRelacionParSii(rxp: seq<RubroXProducto>, f: Formulario)
    requires f.aux != "" && f.codigo != "" && f.min.Some? && f.max.Some?
    ensures var p := ConfirmarRelacionPar(rxp, f, None);
      (p.aviso == Error(YaExiste) <==>
         exists i :: 0 <= i < |rxp| && rxp[i].codigoprod == f.aux && rxp[i].codigorub == f.codigo) &&
      (p.aviso == Registrado ==> p.lista == rxp + [RubroXProducto(f.codigo, f.aux, f.min.value, f.max.value)])
  {
    var p := ConfirmarRelacionPar(rxp, f, None);
    if exists i :: 0 <= i < |rxp| && rxp[i].codigoprod == f.aux && rxp[i].codigorub == f.codigo {
      var i :| 0 <= i < |rxp| && rxp[i].codigoprod == f.aux && rxp[i].codigorub == f.codigo;
      assert ParRelacion(rxp[i]) == (f.aux, f.codigo);
    }
  }

  /** As written, a relation whose codes contain "-" can collide with a
      different one: product "A-B" with rubric "C" is refused because product
      "A" already has rubric "B-C". By pair it is added. */
  lemma AltaRelacionColision()
    ensures var y := RubroXProducto("B-C", "A", 0, 10);
      var f := Formulario("", "C", "A-B", Some(0), Some(10), None);
      ConfirmarRelacion([y], f).aviso == Error(YaExiste) &&
      ConfirmarRelacionPar([y], f, None).aviso == Registrado
  {
    var y := RubroXProducto("B-C", "A", 0, 10);
    var x := RubroXProducto("C", "A-B", 0, 10);
    assert ClaveRelacion(x) == ['A', '-', 'B', '-', 'C'] == ClaveRelacion(y);
    assert ClaveTomada([y], ClaveRelacion, ClaveRelacion(x)) by { assert ClaveRelacion([y][0]) == ClaveRelacion(x); }
    assert ParRelacion(x) != ParRelacion(y) by { assert |x.codigoprod| != |y.codigoprod|; }
    assert !ClaveTomada([y], ParRelacion, ParRelacion(x));
  }

  /** Deleting a product, a rubric or a silo: every record with the key
      goes, every other record stays, in order. */
  function EliminarPorClave<T(!new), K(==)>(lista: seq<T>, clave: T -> K, id: K): (r: seq<T>)
    ensures forall x :: x in r <==> x in lista && clave(x) != id
    ensures forall x :: multiset(r)[x] == if clave(x) != id then multiset(lista)[x] else 0
  {
    var p := x => clave(x) != id;
    FilterMultiset(lista, p);
    Filter(lista, p)
  }

  function EliminarProducto(prods: seq<Producto>, id: string): seq<Producto>
  {
    EliminarPorClave(prods, ClaveProducto, id)
  }

  function EliminarRubro(rubros: seq<Rubro>, id: string): seq<Rubro>
  {
    EliminarPorClave(rubros, ClaveRubro, id)
  }

  function EliminarSilo(silos: seq<Silo>, id: string): seq<Silo>
  {
    EliminarPorClave(silos, ClaveSilo, id)
  }

  /** The relation delete button as written: it splits the composite key at
      every "-" and keeps the first two pieces as product and rubric. */
  function EliminarRelacion(rxp: seq<RubroXProducto>, comb: string): seq<RubroXProducto>
  {
    var partes := Dividir(comb, '-');
    var pId := partes[0];
    var rId := if |partes| >= 2 then Some(partes[1]) else None;
    Filter(rxp, (r: RubroXProducto) => !(r.codigoprod == pId && Some(r.codigorub) == rId))
  }

  predicate MismoPar(r: RubroXProducto, prod: string, rub: string)
  {
    r.codigoprod == prod && r.codigorub == rub
  }

  /** The relation delete by pair: exactly the relations of that product and
      rubric go. */
  function EliminarRelacionPar(rxp: seq<RubroXProducto>, prod: string, rub: string): (r: seq<RubroXProducto>)
    ensures forall x :: x in r <==> x in rxp && !(x.codigoprod == prod && x.codigorub == rub)
    ensures forall x :: multiset(r)[x] == if MismoPar(x, prod, rub) then 0 else multiset(rxp)[x]
  {
    var p := (r: RubroXProducto) => !MismoPar(r, prod, rub);
    FilterMultiset(rxp, p);
    Filter(rxp, p)
  }

  /** When neither code contains "-", the delete as written removes the
      same relations as the delete by pair. */
  lemma EliminarRelacionSinGuion(rxp: seq<RubroXProducto>, x: RubroXProducto)
    requires '-' !in x.codigoprod && '-' !in x.codigorub
    ensures EliminarRelacion(rxp, ClaveRelacion(x)) == EliminarRelacionPar(rxp, x.codigoprod, x.codigorub)
  {
    DividirPrimero(x.codigoprod, '-', x.codigorub);
    DividirSinSeparador(x.codigorub, '-');
    assert ClaveRelacion(x) == x.codigoprod + ['-'] + x.codigorub;
    var partes := Dividir(ClaveRelacion(x), '-');
    assert partes == [x.codigoprod, x.codigorub];
    FilterSame(rxp, (r: RubroXProducto) => !(r.codigoprod == partes[0] && Some(r.codigorub) == Some(partes[1])),
                    (r: RubroXProducto) => !MismoPar(r, x.codigoprod, x.codigorub));
  }

  /** The key of product "SOJA-1" with rubric "HUM" splits into three pieces. */
  lemma ClaveSojaHum()
    ensures Dividir(ClaveRelacion(RubroXProducto("HUM", "SOJA-1", 0, 14)), '-') == ["SOJA", "1", "HUM"]
  {
    assert ClaveRelacion(RubroXProducto("HUM", "SOJA-1", 0, 14)) == "SOJA" + ['-'] + ("1" + ['-'] + "HUM");
    DividirPrimero("SOJA", '-', "1" + ['-'] + "HUM");
    DividirPrimero("1", '-', "HUM");
    DividirSinSeparador("HUM", '-');
  }

  /** As written, deleting the relation of product "SOJA-1" and rubric "HUM"
      keeps it and deletes instead the relation of product "SOJA" and rubric
      "1"; by pair, the chosen relation goes and the other stays. */
  lemma EliminarRelacionConGuion()
    ensures var x := RubroXProducto("HUM", "SOJA-1", 0, 14);
      var y := RubroXProducto("1", "SOJA", 0, 14);
      EliminarRelacion([x, y], ClaveRelacion(x)) == [x] &&
      EliminarRelacionPar([x, y], x.codigoprod, x.codigorub) == [y]
  {
    BorradoComoEscrito();
    BorradoPorPar();
  }

  lemma BorradoComoEscrito()
    ensures var x := RubroXProducto("HUM", "SOJA-1", 0, 14);
      EliminarRelacion([x, RubroXProducto("1", "SOJA", 0, 14)], ClaveRelacion(x)) == [x]
  {
    var x := RubroXProducto("HUM", "SOJA-1", 0, 14);
    var y := RubroXProducto("1", "SOJA", 0, 14);
    ClaveSojaHum();
    var comoEscrito := (r: RubroXProducto) => !(r.codigoprod == "SOJA" && Some(r.codigorub) == Some("1"));
    assert EliminarRelacion([x, y], ClaveRelacion(x)) == Filter([x, y], comoEscrito);
    FilterDos(x, y, comoEscrito);
  }

  lemma BorradoPorPar()
    ensures var x := RubroXProducto("HUM", "SOJA-1", 0, 14);
      EliminarRelacionPar([x, RubroXProducto("1", "SOJA", 0, 14)], x.codigoprod, x.codigorub)
        == [RubroXProducto("1", "SOJA", 0, 14)]
  {
    var x := RubroXProducto("HUM", "SOJA-1", 0, 14);
    var y := RubroXProducto("1", "SOJA", 0, 14);
    FilterDos(x, y, (r: RubroXProducto) => !MismoPar(r, x.codigoprod, x.codigorub));
  }
}
