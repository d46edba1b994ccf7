/** The weighbridge: gross weighing (C -> B), tare weighing (B -> F), the
    plant-wide capacity check and the cascade that pours the net weight into
    the silos of the truck's product, in stored order. */
module Pesaje {
  import opened Domain
  import opened Seqs

  // ---------------------------------------------------------------------
  // The weighing queue

  predicate EnEspera(op: Operacion, hoy: string)
  {
    op.fechacup == hoy && (op.estado == C || op.estado == B)
  }

  /** Today's trucks that passed quality or already have a gross weight. */
  function CamionesEnEspera(ops: seq<Operacion>, hoy: string): (r: seq<Operacion>)
    ensures forall op :: op in r <==> op in ops && op.fechacup == hoy && (op.estado == C || op.estado == B)
    ensures forall op :: multiset(r)[op] == if EnEspera(op, hoy) then multiset(ops)[op] else 0
  {
    var p := op => EnEspera(op, hoy);
    FilterMultiset(ops, p);
    Filter(ops, p)
  }

  // ---------------------------------------------------------------------
  // Silo capacity and the cascade

  /** Free space of a silo; negative when a silo is over-filled. */
  function Libre(s: Silo): int
  {
    s.capacidad - s.stock
  }

  function SumaLibre(silos: seq<Silo>): int
  {
    if silos == [] then 0 else Libre(silos[0]) + SumaLibre(silos[1..])
  }

  function SumaStock(silos: seq<Silo>): int
  {
    if silos == [] then 0 else silos[0].stock + SumaStock(silos[1..])
  }

  /** Total free space, over the silos holding `prod`, that the plant offers.
      Written silo by silo; `DisponibleFiltro` shows it is the source's
      `filter` by product followed by a `reduce` of `capacidad - stock`. */
  function Disponible(silos: seq<Silo>, prod: string): int
  {
    if silos == [] then 0
    else (if silos[0].codprod == prod then Libre(silos[0]) else 0) + Disponible(silos[1..], prod)
  }

  /** The silo-by-silo sum equals filtering by product and then summing the
      free space of what is left. */
  lemma {:induction false} DisponibleFiltro(silos: seq<Silo>, prod: string)
    ensures Disponible(silos, prod) == SumaLibre(Filter(silos, (s: Silo) => s.codprod == prod))
  {
    if silos != [] {
      var p := (s: Silo) => s.codprod == prod;
      var t := Filter(silos[1..], p);
      DisponibleFiltro(silos[1..], prod);
      if p(silos[0]) {
        assert Filter(silos, p) == [silos[0]] + t;
        assert ([silos[0]] + t)[1..] == t;
      } else {
        assert Filter(silos, p) == t;
      }
    }
  }

  /** With no silo for the product the plant offers nothing. */
  lemma {:induction false} DisponibleSinSilos(silos: seq<Silo>, prod: string)
    requires forall i :: 0 <= i < |silos| ==> silos[i].codprod != prod
    ensures Disponible(silos, prod) == 0
  {
    if silos != [] {
      DisponibleSinSilos(silos[1..], prod);
    }
  }

  /** One line of the distribution log: silo name and kilograms poured. */
  datatype Carga = Carga(nombre: string, kg: int)

  /** The cascade's outcome: the new silo array, the log, what is left over. */
  datatype Reparto = Reparto(silos: seq<Silo>, cargas: seq<Carga>, resto: int)

  /** The cascade over `silos` in stored order with `resto` kilograms left
      to pour: a silo of the product takes `min(free, resto)` while `resto`
      is positive and it has free space; every other silo is kept. */
  function Cascada(silos: seq<Silo>, prod: string, resto: int): Reparto
  {
    if silos == [] then Reparto([], [], resto)
    else
      var s := silos[0];
      if s.codprod == prod && resto > 0 && Libre(s) > 0 then
        var carga := Min(Libre(s), resto);
        var cola := Cascada(silos[1..], prod, resto - carga);
        Reparto([s.(stock := s.stock + carga)] + cola.silos, [Carga(s.nombre, carga)] + cola.cargas, cola.resto)
      else
        var cola := Cascada(silos[1..], prod, resto);
        Reparto([s] + cola.silos, cola.cargas, cola.resto)
  }

  function SumaCargas(cargas: seq<Carga>): int
  {
    if cargas == [] then 0 else cargas[0].kg + SumaCargas(cargas[1..])
  }

  /** Number of positions whose stock differs between two silo arrays. */
  function Cargados(antes: seq<Silo>, despues: seq<Silo>): nat
    requires |antes| == |despues|
  {
    if antes == [] then 0
    else (if antes[0].stock != despues[0].stock then 1 else 0) + Cargados(antes[1..], despues[1..])
  }

  /** The silo array after the cascade, compared with the one before: same
      length and order; only `stock` may change, only on silos of the
      product, only upwards, and a silo that changed is not above capacity. */
  predicate FormaSilos(silos: seq<Silo>, nuevos: seq<Silo>, prod: string)
  {
    |nuevos| == |silos| &&
    (forall i :: 0 <= i < |silos| ==> nuevos[i] == silos[i].(stock := nuevos[i].stock)) &&
    (forall i :: 0 <= i < |silos| && silos[i].codprod != prod ==> nuevos[i] == silos[i]) &&
    (forall i :: 0 <= i < |silos| ==> silos[i].stock <= nuevos[i].stock) &&
    (forall i :: 0 <= i < |silos| && nuevos[i].stock != silos[i].stock ==> nuevos[i].stock <= nuevos[i].capacidad)
  }

  /** Putting a silo that took an admissible load in front of an array of
      the right shape keeps the shape. */
  lemma FormaPaso(silos: seq<Silo>, cola: seq<Silo>, prod: string, carga: int)
    requires silos != []
    requires 0 <= carga && (carga > 0 ==> silos[0].codprod == prod && carga <= Libre(silos[0]))
    requires FormaSilos(silos[1..], cola, prod)
    ensures FormaSilos(silos, [silos[0].(stock := silos[0].stock + carga)] + cola, prod)
  {
    var nuevos := [silos[0].(stock := silos[0].stock + carga)] + cola;
    assert forall i :: 1 <= i < |silos| ==> nuevos[i] == cola[i - 1] && silos[i] == silos[1..][i - 1];
  }

  /** Shape of the cascade: the silo array keeps its shape (see
      `FormaSilos`); each log line is a positive load and there is one per
      loaded silo. */
  lemma CascadaForma(silos: seq<Silo>, prod: string, resto: int)
    ensures var r := Cascada(silos, prod, resto);
      FormaSilos(silos, r.silos, prod) &&
      (forall k :: 0 <= k < |r.cargas| ==> r.cargas[k].kg > 0) &&
      |r.cargas| == Cargados(silos, r.silos)
  {
    CascadaFormaSilos(silos, prod, resto);
    CascadaCargas(silos, prod, resto);
  }

  lemma {:induction false} CascadaFormaSilos(silos: seq<Silo>, prod: string, resto: int)
    ensures FormaSilos(silos, Cascada(silos, prod, resto).silos, prod)
  {
    if silos != [] {
      var carga := CargaVoraz(silos[0], prod, resto);
      var cola := Cascada(silos[1..], prod, resto - carga).silos;
      CascadaCabeza(silos, prod, resto);
      CascadaFormaSilos(silos[1..], prod, resto - carga);
      FormaPaso(silos, cola, prod, carga);
      assert Cascada(silos, prod, resto).silos == [silos[0].(stock := silos[0].stock + carga)] + cola;
    }
  }

  lemma {:induction false} CascadaCargas(silos: seq<Silo>, prod: string, resto: int)
    ensures var r := Cascada(silos, prod, resto);
      |r.silos| == |silos| &&
      (forall k :: 0 <= k < |r.cargas| ==> r.cargas[k].kg > 0) &&
      |r.cargas| == Cargados(silos, r.silos)
  {
    if silos != [] {
      var carga := CargaVoraz(silos[0], prod, resto);
      var r := Cascada(silos, prod, resto);
      var cola := Cascada(silos[1..], prod, resto - carga);
      CascadaCabeza(silos, prod, resto);
      CascadaCargas(silos[1..], prod, resto - carga);
      assert r.silos[0].stock == silos[0].stock + carga && r.silos[1..] == cola.silos;
      assert Cargados(silos, r.silos) == (if carga > 0 then 1 else 0) + Cargados(silos[1..], cola.silos);
    }
  }

  /** Conservation of mass: whatever leaves `resto` is exactly what the log
      records and what the silos gain; the remainder never goes negative. */
  lemma {:induction false} CascadaConserva(silos: seq<Silo>, prod: string, resto: int)
    ensures var r := Cascada(silos, prod, resto);
      |r.silos| == |silos| &&
      SumaCargas(r.cargas) == resto - r.resto &&
      SumaStock(r.silos) == SumaStock(silos) + (resto - r.resto) &&
      (resto >= 0 ==> 0 <= r.resto <= resto) &&
      (resto <= 0 ==> r.resto == resto && r.cargas == [])
  {
    if silos != [] {
      var s := silos[0];
      var r := Cascada(silos, prod, resto);
      if s.codprod == prod && resto > 0 && Libre(s) > 0 {
        var carga := Min(Libre(s), resto);
        CascadaConserva(silos[1..], prod, resto - carga);
        var cola := Cascada(silos[1..], prod, resto - carga);
        assert r.silos[1..] == cola.silos && r.cargas[1..] == cola.cargas;
      } else {
        CascadaConserva(silos[1..], prod, resto);
        var cola := Cascada(silos[1..], prod, resto);
        assert r.silos[1..] == cola.silos;
      }
    }
  }

  /** The capacity check is enough: when the net weight fits in the free
      space the plant offers, the cascade pours all of it. Silos with
      negative free space are skipped by the cascade, and only lower the
      checked total, so they cannot make it fall short. */
  lemma {:induction false} CascadaCompleta(silos: seq<Silo>, prod: string, resto: int)
    requires 0 <= resto <= Disponible(silos, prod)
    ensures Cascada(silos, prod, resto).resto == 0
  {
    if silos == [] {
      assert Disponible(silos, prod) == 0;
    } else {
      var s := silos[0];
      if s.codprod == prod && resto > 0 && Libre(s) > 0 {
        var carga := Min(Libre(s), resto);
        if carga == resto {
          CascadaConserva(silos[1..], prod, 0);
        } else {
          CascadaCompleta(silos[1..], prod, resto - carga);
        }
      } else if resto == 0 {
        CascadaConserva(silos[1..], prod, 0);
      } else {
        CascadaCompleta(silos[1..], prod, resto);
      }
    }
  }

  /** The cascade keeps the ledger invariant `0 <= stock <= capacidad`. */
  lemma CascadaLedger(silos: seq<Silo>, prod: string, resto: int)
    requires LedgerValido(silos)
    ensures LedgerValido(Cascada(silos, prod, resto).silos)
  {
    CascadaForma(silos, prod, resto);
  }

  /** The greedy rule for one silo: a silo of the product with free space
      takes `min(free, pending)` while something is still pending, and any
      other silo takes nothing. */
  function CargaVoraz(s: Silo, prod: string, pendiente: int): (c: int)
    ensures 0 <= c
    ensures c > 0 ==> c <= Libre(s) && c <= pendiente && s.codprod == prod
  {
    if s.codprod == prod && pendiente > 0 && Libre(s) > 0 then Min(Libre(s), pendiente) else 0
  }

  /** The first step of the cascade: the first silo takes the greedy rule's
      load, which is also the first log line when positive, and the rest of
      the array gets what is left. */
  lemma CascadaCabeza(silos: seq<Silo>, prod: string, resto: int)
    requires silos != []
    ensures var carga := CargaVoraz(silos[0], prod, resto);
      var r := Cascada(silos, prod, resto);
      var cola := Cascada(silos[1..], prod, resto - carga);
      r.silos == [silos[0].(stock := silos[0].stock + carga)] + cola.silos &&
      r.cargas == (if carga > 0 then [Carga(silos[0].nombre, carga)] else []) + cola.cargas &&
      r.resto == cola.resto
  {
  }

  /** Kilograms poured into the first `k` silos of an array. */
  function Vertido(antes: seq<Silo>, despues: seq<Silo>, k: nat): int
    requires k <= |antes| && k <= |despues|
  {
    if k == 0 then 0 else (despues[0].stock - antes[0].stock) + Vertido(antes[1..], despues[1..], k - 1)
  }

  /** With nothing left to pour the cascade leaves every silo as it was. */
  lemma {:induction false} CascadaAgotada(silos: seq<Silo>, prod: string, resto: int)
    requires resto <= 0
    ensures Cascada(silos, prod, resto).silos == silos
  {
    if silos != [] {
      CascadaAgotada(silos[1..], prod, resto);
      assert [silos[0]] + silos[1..] == silos;
    }
  }

  /** The greedy policy read off an array of silos: the load of the silo at
      position `k` is what the greedy rule gives it, with `resto` minus what
      the silos before it took still pending. */
  predicate Voraz(silos: seq<Silo>, nuevos: seq<Silo>, prod: string, resto: int)
  {
    |nuevos| == |silos| &&
    forall k :: 0 <= k < |silos| ==>
      nuevos[k].stock - silos[k].stock == CargaVoraz(silos[k], prod, resto - Vertido(silos, nuevos, k))
  }

  lemma VorazPaso(silos: seq<Silo>, cola: seq<Silo>, prod: string, resto: int)
    requires silos != []
    requires Voraz(silos[1..], cola, prod, resto - CargaVoraz(silos[0], prod, resto))
    ensures Voraz(silos, [silos[0].(stock := silos[0].stock + CargaVoraz(silos[0], prod, resto))] + cola, prod, resto)
  {
    var carga := CargaVoraz(silos[0], prod, resto);
    var nuevos := [silos[0].(stock := silos[0].stock + carga)] + cola;
    assert nuevos[1..] == cola;
    forall k | 0 < k < |silos|
      ensures nuevos[k].stock - silos[k].stock == CargaVoraz(silos[k], prod, resto - Vertido(silos, nuevos, k))
    {
      assert Vertido(silos, nuevos, k) == carga + Vertido(silos[1..], cola, k - 1);
      assert nuevos[k] == cola[k - 1] && silos[k] == silos[1..][k - 1];
    }
  }

  /** The cascade follows the greedy policy silo by silo (see `Voraz`). */
  lemma {:induction false} CascadaVoraz(silos: seq<Silo>, prod: string, resto: int)
    ensures Voraz(silos, Cascada(silos, prod, resto).silos, prod, resto)
  {
    if silos != [] {
      var carga := CargaVoraz(silos[0], prod, resto);
      CascadaVoraz(silos[1..], prod, resto - carga);
      CascadaCabeza(silos, prod, resto);
      VorazPaso(silos, Cascada(silos[1..], prod, resto - carga).silos, prod, resto);
    }
  }

  /** A silo of the product placed before a silo that received grain is
      full, or was over-filled already. */
  predicate LlenaAntes(silos: seq<Silo>, nuevos: seq<Silo>, prod: string)
  {
    |nuevos| == |silos| &&
    forall i, j :: 0 <= i < j < |silos| && silos[i].codprod == prod && nuevos[j].stock != silos[j].stock ==>
      nuevos[i].stock >= silos[i].capacidad
  }

  lemma LlenaPaso(silos: seq<Silo>, cola: seq<Silo>, prod: string, resto: int)
    requires silos != []
    requires LlenaAntes(silos[1..], cola, prod)
    requires resto - CargaVoraz(silos[0], prod, resto) <= 0 ==> cola == silos[1..]
    ensures LlenaAntes(silos, [silos[0].(stock := silos[0].stock + CargaVoraz(silos[0], prod, resto))] + cola, prod)
  {
    var carga := CargaVoraz(silos[0], prod, resto);
    var nuevos := [silos[0].(stock := silos[0].stock + carga)] + cola;
    forall i, j | 0 <= i < j < |silos| && silos[i].codprod == prod && nuevos[j].stock != silos[j].stock
      ensures nuevos[i].stock >= silos[i].capacidad
    {
      assert nuevos[j] == cola[j - 1] && silos[j] == silos[1..][j - 1];
      if i > 0 {
        assert nuevos[i] == cola[i - 1] && silos[i] == silos[1..][i - 1];
      }
    }
  }

  /** The order of the cascade: every silo of the product before the last
      one that received grain ends full (see `LlenaAntes`). */
  lemma {:induction false} CascadaLlenaAntes(silos: seq<Silo>, prod: string, resto: int)
    ensures LlenaAntes(silos, Cascada(silos, prod, resto).silos, prod)
  {
    if silos != [] {
      var carga := CargaVoraz(silos[0], prod, resto);
      var cola := Cascada(silos[1..], prod, resto - carga).silos;
      CascadaCabeza(silos, prod, resto);
      CascadaLlenaAntes(silos[1..], prod, resto - carga);
      if resto - carga <= 0 {
        CascadaAgotada(silos[1..], prod, resto - carga);
      }
      LlenaPaso(silos, cola, prod, resto);
      assert Cascada(silos, prod, resto).silos == [silos[0].(stock := silos[0].stock + carga)] + cola;
    }
  }

  /** One step of the cascade at position `i` of the array. */
  lemma CascadaPaso(silos: seq<Silo>, i: nat, prod: string, resto: int)
    requires i < |silos|
    ensures var s := silos[i];
      Cascada(silos[i..], prod, resto) ==
        if s.codprod == prod && resto > 0 && Libre(s) > 0 then
          var cola := Cascada(silos[i + 1..], prod, resto - Min(Libre(s), resto));
          Reparto([s.(stock := s.stock + Min(Libre(s), resto))] + cola.silos,
                  [Carga(s.nombre, Min(Libre(s), resto))] + cola.cargas, cola.resto)
        else
          var cola := Cascada(silos[i + 1..], prod, resto);
          Reparto([s] + cola.silos, cola.cargas, cola.resto)
  {
    assert silos[i..][0] == silos[i] && silos[i..][1..] == silos[i + 1..];
  }

  /** Moving the head of the rest of the cascade onto what is already done. */
  lemma Anexar(total: Reparto, nuevos: seq<Silo>, afectados: seq<Carga>, cabeza: Silo, cargas: seq<Carga>, cola: Reparto)
    requires total.silos == nuevos + ([cabeza] + cola.silos)
    requires total.cargas == afectados + (cargas + cola.cargas)
    ensures total.silos == (nuevos + [cabeza]) + cola.silos
    ensures total.cargas == (afectados + cargas) + cola.cargas
  {
    assert (nuevos + [cabeza]) + cola.silos == nuevos + ([cabeza] + cola.silos);
    assert (afectados + cargas) + cola.cargas == afectados + (cargas + cola.cargas);
  }

  /** The loop of the source: walks the silo array once, keeping the
      remainder still to pour and the log of loads. */
  method Distribuir(silos: seq<Silo>, prod: string, neto: int)
    returns (nuevos: seq<Silo>, afectados: seq<Carga>, resto: int)
    ensures Reparto(nuevos, afectados, resto) == Cascada(silos, prod, neto)
  {
    ghost var total := Cascada(silos, prod, neto);
    nuevos, afectados, resto := [], [], neto;
    var i := 0;
    while i < |silos|
      invariant 0 <= i <= |silos|
      invariant total.silos == nuevos + Cascada(silos[i..], prod, resto).silos
      invariant total.cargas == afectados + Cascada(silos[i..], prod, resto).cargas
      invariant total.resto == Cascada(silos[i..], prod, resto).resto
    {
      var silo := silos[i];
      CascadaPaso(silos, i, prod, resto);
      ghost var antes := Cascada(silos[i..], prod, resto);
      var cargado := false;
      if silo.codprod == prod && resto > 0 {
        var espacioLibre := silo.capacidad - silo.stock;
        if espacioLibre > 0 {
          var carga := Min(espacioLibre, resto);
          ghost var cola := Cascada(silos[i + 1..], prod, resto - carga);
          var lleno := silo.(stock := silo.stock + carga);
          assert antes == Reparto([lleno] + cola.silos, [Carga(silo.nombre, carga)] + cola.cargas, cola.resto);
          Anexar(total, nuevos, afectados, lleno, [Carga(silo.nombre, carga)], cola);
          resto := resto - carga;
          afectados := afectados + [Carga(silo.nombre, carga)];
          nuevos := nuevos + [lleno];
          cargado := true;
        }
      }
      if !cargado {
        ghost var cola := Cascada(silos[i + 1..], prod, resto);
        assert antes == Reparto([silo] + cola.silos, cola.cargas, cola.resto);
        Anexar(total, nuevos, afectados, silo, [], cola);
        nuevos := nuevos + [silo];
      }
      i := i + 1;
    }
    assert silos[i..] == [];
    assert nuevos + [] == nuevos && afectados + [] == afectados;
  }

  // ---------------------------------------------------------------------
  // Operation updates

  /** Gross step: matching quality-passed operations get the gross weight. */
  function RegistrarBruto(ops: seq<Operacion>, patente: string, hoy: string, peso: int): (r: seq<Operacion>)
    ensures |r| == |ops|
    ensures forall i :: 0 <= i < |ops| ==>
      r[i] == if ops[i].patente == patente && ops[i].fechacup == hoy && ops[i].estado == C
              then ops[i].(bruto := peso, estado := B) else ops[i]
  {
    if ops == [] then []
    else
      var op := ops[0];
      [if op.patente == patente && op.fechacup == hoy && op.estado == C
       then op.(bruto := peso, estado := B) else op] + RegistrarBruto(ops[1..], patente, hoy, peso)
  }

  /** Tare step: matching gross-weighed operations get the tare and finish. */
  function RegistrarTara(ops: seq<Operacion>, patente: string, hoy: string, peso: int): (r: seq<Operacion>)
    ensures |r| == |ops|
    ensures forall i :: 0 <= i < |ops| ==>
      r[i] == if ops[i].patente == patente && ops[i].fechacup == hoy && ops[i].estado == B
              then ops[i].(tara := peso, estado := F) else ops[i]
  {
    if ops == [] then []
    else
      var op := ops[0];
      [if op.patente == patente && op.fechacup == hoy && op.estado == B
       then op.(tara := peso, estado := F) else op] + RegistrarTara(ops[1..], patente, hoy, peso)
  }

  // ---------------------------------------------------------------------
  // The save handler

  /** What one press of "save" produces. `Distribucion` is the computed
      commit (new operations and silos, the log, the net weight). */
  datatype Resultado =
    | PesoInvalido
    | BrutoRegistrado(ops: seq<Operacion>)
    | TaraNoMenorQueBruto
    | CapacidadInsuficiente(neto: int, disponible: int)
    | Distribucion(ops: seq<Operacion>, silos: seq<Silo>, cargas: seq<Carga>, neto: int)
    | SinAccion

  /** The save handler on the selected operation `sel` (the snapshot taken
      from the queue) and the entered weight (`None` for an empty field). */
  function Pesar(ops: seq<Operacion>, silos: seq<Silo>, sel: Option<Operacion>, peso: Option<int>, hoy: string): Resultado
  {
    if sel.None? || peso.None? || peso.value <= 0 then PesoInvalido
    else
      var op := sel.value;
      var w := peso.value;
      if op.estado == C then BrutoRegistrado(RegistrarBruto(ops, op.patente, hoy, w))
      else if op.estado == B then
        if w >= op.bruto then TaraNoMenorQueBruto
        else
          var neto := op.bruto - w;
          var disponible := Disponible(silos, op.codprod);
          if neto > disponible then CapacidadInsuficiente(neto, disponible)
          else
            var rep := Cascada(silos, op.codprod, neto);
            Distribucion(RegistrarTara(ops, op.patente, hoy, w), rep.silos, rep.cargas, neto)
      else SinAccion
  }

  /** Explicit confirmation is asked exactly when the load was split. */
  predicate RequiereConfirmacion(res: Resultado)
  {
    res.Distribucion? && |res.cargas| > 1
  }

  /** A missing operation, an empty weight or a weight of at most zero is
      refused before anything else. */
  lemma PesarRechazaPesoInvalido(ops: seq<Operacion>, silos: seq<Silo>, sel: Option<Operacion>, peso: Option<int>, hoy: string)
    requires sel.None? || peso.None? || peso.value <= 0
    ensures Pesar(ops, silos, sel, peso, hoy) == PesoInvalido
  {
  }

  /** Gross step: only the selected plate's operations of today in state C
      change, getting the weight and state B; the silos are not touched. */
  lemma PesarBruto(ops: seq<Operacion>, silos: seq<Silo>, op: Operacion, w: int, hoy: string)
    requires op.estado == C && w > 0
    ensures var res := Pesar(ops, silos, Some(op), Some(w), hoy);
      res.BrutoRegistrado? && |res.ops| == |ops| &&
      forall i :: 0 <= i < |ops| ==>
        if ops[i].patente == op.patente && ops[i].fechacup == hoy && ops[i].estado == C
        then res.ops[i].estado == B && res.ops[i].bruto == w &&
             res.ops[i] == ops[i].(bruto := w, estado := B)
        else res.ops[i] == ops[i]
  {
  }

  /** Tare ordering gate: a tare equal to or above the gross weight is
      refused, and a tare below it leaves a positive net weight. */
  lemma PesarTaraOrden(ops: seq<Operacion>, silos: seq<Silo>, op: Operacion, w: int, hoy: string)
    requires op.estado == B && w > 0
    ensures var res := Pesar(ops, silos, Some(op), Some(w), hoy);
      (w >= op.bruto <==> res == TaraNoMenorQueBruto) &&
      (res.CapacidadInsuficiente? || res.Distribucion? ==> res.neto == op.bruto - w > 0)
  {
  }

  /** The capacity gate: the unload is blocked, with the net weight and the
      available total, exactly when the net weight exceeds the free space of
      the product's silos; with no such silo every unload is blocked. */
  lemma PesarCapacidad(ops: seq<Operacion>, silos: seq<Silo>, op: Operacion, w: int, hoy: string)
    requires op.estado == B && 0 < w < op.bruto
    ensures var res := Pesar(ops, silos, Some(op), Some(w), hoy);
      var neto := op.bruto - w;
      (neto > Disponible(silos, op.codprod) <==> res == CapacidadInsuficiente(neto, Disponible(silos, op.codprod))) &&
      ((forall i :: 0 <= i < |silos| ==> silos[i].codprod != op.codprod) ==> res.CapacidadInsuficiente?)
  {
    if forall i :: 0 <= i < |silos| ==> silos[i].codprod != op.codprod {
      DisponibleSinSilos(silos, op.codprod);
    }
  }

  /** A successful tare step: the net weight is poured in full (the log and
      the silos' gain both equal it), silos of other products and all fields
      but `stock` are kept, the ledger invariant survives, and only the
      matching operation in state B takes the tare and finishes. */
  lemma PesarDistribucion(ops: seq<Operacion>, silos: seq<Silo>, op: Operacion, w: int, hoy: string)
    requires op.estado == B && 0 < w < op.bruto
    requires op.bruto - w <= Disponible(silos, op.codprod)
    ensures var res := Pesar(ops, silos, Some(op), Some(w), hoy);
      res.Distribucion? && res.neto == op.bruto - w &&
      SumaCargas(res.cargas) == res.neto &&
      SumaStock(res.silos) == SumaStock(silos) + res.neto &&
      |res.silos| == |silos| &&
      (forall i :: 0 <= i < |silos| ==> res.silos[i] == silos[i].(stock := res.silos[i].stock)) &&
      (forall i :: 0 <= i < |silos| && silos[i].codprod != op.codprod ==> res.silos[i] == silos[i]) &&
      (LedgerValido(silos) ==> LedgerValido(res.silos)) &&
      (RequiereConfirmacion(res) <==> Cargados(silos, res.silos) > 1) &&
      |res.ops| == |ops| &&
      (forall i :: 0 <= i < |ops| ==>
        if ops[i].patente == op.patente && ops[i].fechacup == hoy && ops[i].estado == B
        then res.ops[i] == ops[i].(tara := w, estado := F)
        else res.ops[i] == ops[i])
  {
    var neto := op.bruto - w;
    PesarTara(ops, silos, op, w, hoy);
    CascadaEntera(silos, op.codprod, neto);
    var res := Pesar(ops, silos, Some(op), Some(w), hoy);
    var rtara := RegistrarTara(ops, op.patente, hoy, w);
    assert res.ops == rtara;
    assert |res.ops| == |ops| &&
      forall i :: 0 <= i < |ops| ==>
        if ops[i].patente == op.patente && ops[i].fechacup == hoy && ops[i].estado == B
        then res.ops[i] == ops[i].(tara := w, estado := F)
        else res.ops[i] == ops[i];
  }

  /** The branch of the handler that pours: the tare is recorded and the net
      weight goes down the cascade. */
  lemma PesarTara(ops: seq<Operacion>, silos: seq<Silo>, op: Operacion, w: int, hoy: string)
    requires op.estado == B && 0 < w < op.bruto
    requires op.bruto - w <= Disponible(silos, op.codprod)
    ensures var rep := Cascada(silos, op.codprod, op.bruto - w);
      Pesar(ops, silos, Some(op), Some(w), hoy) ==
        Distribucion(RegistrarTara(ops, op.patente, hoy, w), rep.silos, rep.cargas, op.bruto - w)
  {
    assert Some(op).value == op && Some(w).value == w;
  }

  /** What `PesarDistribucion` needs of a cascade that pours all of `neto`. */
  lemma CascadaEntera(silos: seq<Silo>, prod: string, neto: int)
    requires 0 <= neto <= Disponible(silos, prod)
    ensures var r := Cascada(silos, prod, neto);
      SumaCargas(r.cargas) == neto &&
      SumaStock(r.silos) == SumaStock(silos) + neto &&
      |r.silos| == |silos| &&
      (forall i :: 0 <= i < |silos| ==> r.silos[i] == silos[i].(stock := r.silos[i].stock)) &&
      (forall i :: 0 <= i < |silos| && silos[i].codprod != prod ==> r.silos[i] == silos[i]) &&
      (LedgerValido(silos) ==> LedgerValido(r.silos)) &&
      |r.cargas| == Cargados(silos, r.silos)
  {
    CascadaForma(silos, prod, neto);
    CascadaConserva(silos, prod, neto);
    CascadaCompleta(silos, prod, neto);
  }

  /** Two soybean silos, the first with 100 kg free and the second empty; a
      truck weighing 2000 kg gross and 1500 kg tare pours 100 kg into the
      first and 400 kg into the second, in two log lines, so the split is
      shown for confirmation, and the operation finishes. */
  lemma EscenarioDosSilos()
    ensures var s1 := Silo("S1", "SILO 1", "SOJA", 900, 1000);
      var s2 := Silo("S2", "SILO 2", "SOJA", 0, 1000);
      var op := Operacion("AB123CD", "SOJA", "2025-03-10", B, 2000, 0);
      var res := Pesar([op], [s1, s2], Some(op), Some(1500), "2025-03-10");
      res == Distribucion([op.(tara := 1500, estado := F)], [s1.(stock := 1000), s2.(stock := 400)],
                          [Carga("SILO 1", 100), Carga("SILO 2", 400)], 500) &&
      RequiereConfirmacion(res)
  {
    var s1 := Silo("S1", "SILO 1", "SOJA", 900, 1000);
    var s2 := Silo("S2", "SILO 2", "SOJA", 0, 1000);
    assert [s1, s2][1..] == [s2] && [s2][1..] == [];
    assert Disponible([], "SOJA") == 0;
  }

  /** Every way the handler can end, the recorded weights stay consistent
      and every operation keeps its plate and date, provided the selection
      came from today's queue of a store whose (plate, date) pairs are
      unique. */
  lemma PesarCoherente(ops: seq<Operacion>, silos: seq<Silo>, sel: Operacion, peso: Option<int>, hoy: string)
    requires PesajesCoherentes(ops) && ClavesUnicas(ops)
    requires sel in ops && sel.fechacup == hoy
    ensures var res := Pesar(ops, silos, Some(sel), peso, hoy);
      (res.BrutoRegistrado? || res.Distribucion?) ==>
        PesajesCoherentes(res.ops) && ClavesUnicas(res.ops) && |res.ops| == |ops| &&
        forall i :: 0 <= i < |ops| ==> res.ops[i].patente == ops[i].patente && res.ops[i].fechacup == ops[i].fechacup
  {
    var res := Pesar(ops, silos, Some(sel), peso, hoy);
    if res.BrutoRegistrado? || res.Distribucion? {
      var k :| 0 <= k < |ops| && ops[k] == sel;
      forall i | 0 <= i < |ops|
        ensures PesajeCoherente(res.ops[i])
        ensures res.ops[i].patente == ops[i].patente && res.ops[i].fechacup == ops[i].fechacup
      {
        if res.Distribucion? && ops[i].patente == sel.patente && ops[i].fechacup == hoy && ops[i].estado == B {
          assert i == k;
        }
      }
    }
  }

  // ---------------------------------------------------------------------
  // The store the handler reads and writes

  /** The two storage keys the weighbridge writes: `operaciones_dat` and
      `silos_dat`, each replaced as a whole. */
  class Balanza {
    var operaciones: seq<Operacion>
    var silos: seq<Silo>

    constructor (ops: seq<Operacion>, ss: seq<Silo>)
      ensures operaciones == ops && silos == ss
    {
      operaciones := ops;
      silos := ss;
    }

    /** The commit: operations and silos are written together. */
    method EjecutarGuardado(nuevasOps: seq<Operacion>, nuevosSilos: seq<Silo>)
      modifies this
      ensures operaciones == nuevasOps && silos == nuevosSilos
    {
      operaciones := nuevasOps;
      silos := nuevosSilos;
    }

    /** One press of "save". The gross step and a load that fits one silo are
        written at once; a load split over several silos is returned for the
        operator to confirm (then `EjecutarGuardado` commits it); every
        refusal leaves the store as it was. */
    method GuardarMovimiento(sel: Option<Operacion>, peso: Option<int>, hoy: string) returns (res: Resultado)
      modifies this
      ensures res == Pesar(old(operaciones), old(silos), sel, peso, hoy)
      ensures res.BrutoRegistrado? ==> operaciones == res.ops && silos == old(silos)
      ensures res.Distribucion? && !RequiereConfirmacion(res) ==> operaciones == res.ops && silos == res.silos
      ensures !res.BrutoRegistrado? && !(res.Distribucion? && !RequiereConfirmacion(res)) ==>
        operaciones == old(operaciones) && silos == old(silos)
    {
      if sel.None? || peso.None? || peso.value <= 0 {
        return PesoInvalido;
      }
      var op := sel.value;
      var valorPeso := peso.value;
      if op.estado == C {
        var nuevas := RegistrarBruto(operaciones, op.patente, hoy, valorPeso);
        operaciones := nuevas;
        res := BrutoRegistrado(nuevas);
      } else if op.estado == B {
        if valorPeso >= op.bruto {
          return TaraNoMenorQueBruto;
        }
        var netoTotal := op.bruto - valorPeso;
        var disponible := Disponible(silos, op.codprod);
        if netoTotal > disponible {
          return CapacidadInsuficiente(netoTotal, disponible);
        }
        var nuevosSilos, afectados, resto := Distribuir(silos, op.codprod, netoTotal);
        var nuevasOps := RegistrarTara(operaciones, op.patente, hoy, valorPeso);
        res := Distribucion(nuevasOps, nuevosSilos, afectados, netoTotal);
        ghost var rep := Cascada(silos, op.codprod, netoTotal);
        assert nuevosSilos == rep.silos && afectados == rep.cargas;
        assert res == Pesar(operaciones, silos, sel, peso, hoy);
        if |afectados| <= 1 {
          EjecutarGuardado(nuevasOps, nuevosSilos);
        }
      } else {
        res := SinAccion;
      }
    }
  }
}
