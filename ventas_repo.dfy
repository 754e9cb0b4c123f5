/** The ventas and ventas_producto tables: inserting a sale with its lines,
    deleting a sale and giving its stock back, and the two reads. */
module VentasRepo {
  import opened Common
  import opened Ordering
  import opened Tables
  import opened ProductoRepo

  /** An item as the service hands it over: the product, its name (not
      stored), the quantity and the line amount. */
  datatype ItemVenta = ItemVenta(idProducto: int, nombre: string, cantidad: int, montoProducto: int)

  /** The line rows `insertar_venta` writes for `items`, all tagged `id`. */
  function LineasDe(id: int, items: seq<ItemVenta>): (r: seq<Linea>)
    ensures |r| == |items|
    ensures forall i :: 0 <= i < |r| ==>
      r[i] == Linea(id, items[i].idProducto, items[i].cantidad, items[i].montoProducto)
  {
    if items == [] then []
    else [Linea(id, items[0].idProducto, items[0].cantidad, items[0].montoProducto)] + LineasDe(id, items[1..])
  }

  // ---------------------------------------------------------------- line filters

  /** `WHERE id_venta = id`: the lines of one sale, in table order. */
  function DeVenta(ls: seq<Linea>, id: int): (r: seq<Linea>)
    ensures |r| <= |ls|
    ensures forall i :: 0 <= i < |r| ==> r[i].idVenta == id
  {
    if ls == [] then []
    else if ls[0].idVenta == id then [ls[0]] + DeVenta(ls[1..], id)
    else DeVenta(ls[1..], id)
  }

  /** What `DELETE ... WHERE id_venta = id` leaves: the other sales' lines. */
  function SinVenta(ls: seq<Linea>, id: int): (r: seq<Linea>)
    ensures |r| <= |ls|
    ensures forall i :: 0 <= i < |r| ==> r[i].idVenta != id
  {
    if ls == [] then []
    else if ls[0].idVenta != id then [ls[0]] + SinVenta(ls[1..], id)
    else SinVenta(ls[1..], id)
  }

  /** The two filters split the lines: together they hold each line exactly
      as often as the table does. */
  lemma {:induction false} DeVentaSinVentaParten(ls: seq<Linea>, id: int)
    ensures multiset(DeVenta(ls, id)) + multiset(SinVenta(ls, id)) == multiset(ls)
  {
    if ls != [] {
      DeVentaSinVentaParten(ls[1..], id);
      assert ls == [ls[0]] + ls[1..];
      assert multiset(ls) == multiset{ls[0]} + multiset(ls[1..]);
      if ls[0].idVenta == id {
        assert multiset(DeVenta(ls, id)) == multiset{ls[0]} + multiset(DeVenta(ls[1..], id));
      } else {
        assert multiset(SinVenta(ls, id)) == multiset{ls[0]} + multiset(SinVenta(ls[1..], id));
      }
    }
  }

  lemma {:induction false} DeVentaConcat(a: seq<Linea>, b: seq<Linea>, id: int)
    ensures DeVenta(a + b, id) == DeVenta(a, id) + DeVenta(b, id)
  {
    if a == [] {
      assert a + b == b;
    } else {
      assert (a + b)[0] == a[0] && (a + b)[1..] == a[1..] + b;
      DeVentaConcat(a[1..], b, id);
      if a[0].idVenta == id {
        assert DeVenta(a + b, id) == [a[0]] + DeVenta(a[1..] + b, id);
      } else {
        assert DeVenta(a + b, id) == DeVenta(a[1..] + b, id);
      }
    }
  }

  /** A sale no line belongs to has no lines. */
  lemma {:induction false} DeVentaVacia(ls: seq<Linea>, id: int)
    requires forall i :: 0 <= i < |ls| ==> ls[i].idVenta != id
    ensures DeVenta(ls, id) == []
  {
    if ls != [] {
      DeVentaVacia(ls[1..], id);
    }
  }

  /** All lines written for a sale belong to it. */
  lemma {:induction false} DeVentaLineasDe(id: int, items: seq<ItemVenta>)
    ensures DeVenta(LineasDe(id, items), id) == LineasDe(id, items)
  {
    if items != [] {
      assert LineasDe(id, items)[1..] == LineasDe(id, items[1..]);
      DeVentaLineasDe(id, items[1..]);
    }
  }

  /** Other sales' lines written for `id` are none of sale `k`'s. */
  lemma {:induction false} DeOtraVentaLineasDe(id: int, items: seq<ItemVenta>, k: int)
    requires k != id
    ensures DeVenta(LineasDe(id, items), k) == []
  {
    DeVentaVacia(LineasDe(id, items), k);
  }

  /** Removing sale `id`'s lines keeps every other sale's lines, in order, and
      leaves none of `id`. */
  lemma {:induction false} SinVentaConserva(ls: seq<Linea>, id: int, k: int)
    ensures DeVenta(SinVenta(ls, id), id) == []
    ensures k != id ==> DeVenta(SinVenta(ls, id), k) == DeVenta(ls, k)
  {
    DeVentaVacia(SinVenta(ls, id), id);
    if ls != [] {
      SinVentaConserva(ls[1..], id, k);
    }
  }

  // ---------------------------------------------------------------- insertar_venta

  /** `insertar_venta`: the header under the next id, then one line per item;
      returns the new state and the id. */
  function InsertarVentaSpec(t: Snapshot, v: Venta, items: seq<ItemVenta>): (Snapshot, int)
  {
    var id := t.nextVenta;
    (t.(ventas := t.ventas[id := v], lineas := t.lineas + LineasDe(id, items), nextVenta := id + 1), id)
  }

  method InsertarVenta(db: Database, v: Venta, items: seq<ItemVenta>) returns (id: int)
    requires db.Valid()
    modifies db
    ensures db.Valid()
    ensures (db.Snap(), id) == InsertarVentaSpec(old(db.Snap()), v, items)
  {
    id := db.nextVenta;
    db.ventas := db.ventas[id := v];
    db.nextVenta := id + 1;
    db.lineas := db.lineas + LineasDe(id, items);
    InsertarVentaBienFormado(old(db.Snap()), v, items);
  }

  lemma InsertarVentaBienFormado(t: Snapshot, v: Venta, items: seq<ItemVenta>)
    requires WellFormed(t)
    ensures WellFormed(InsertarVentaSpec(t, v, items).0)
  {
    var t' := InsertarVentaSpec(t, v, items).0;
    var id := t.nextVenta;
    forall i | 0 <= i < |t'.lineas| ensures t'.lineas[i].idVenta in t'.ventas {
      if i >= |t.lineas| {
        assert t'.lineas[i] == LineasDe(id, items)[i - |t.lineas|];
      } else {
        assert t'.lineas[i] == t.lineas[i];
      }
    }
  }

  /** insertar_venta stores the header under a fresh id, its lines are exactly
      one per item in item order, other sales keep their lines, and no
      product or price changes (the stock in particular). */
  lemma InsertarVentaEfecto(t: Snapshot, v: Venta, items: seq<ItemVenta>)
    requires WellFormed(t)
    ensures var (t', id) := InsertarVentaSpec(t, v, items);
      && id !in t.ventas
      && WellFormed(t')
      && t'.ventas == t.ventas[id := v]
      && DeVenta(t'.lineas, id) == LineasDe(id, items)
      && (forall k :: k != id ==> DeVenta(t'.lineas, k) == DeVenta(t.lineas, k))
      && t'.productos == t.productos
      && t'.precios == t.precios
  {
    var (t', id) := InsertarVentaSpec(t, v, items);
    InsertarVentaBienFormado(t, v, items);
    DeVentaConcat(t.lineas, LineasDe(id, items), id);
    DeVentaVacia(t.lineas, id);
    DeVentaLineasDe(id, items);
    forall k | k != id ensures DeVenta(t'.lineas, k) == DeVenta(t.lineas, k) {
      DeVentaConcat(t.lineas, LineasDe(id, items), k);
      DeOtraVentaLineasDe(id, items, k);
    }
  }

  // ---------------------------------------------------------------- eliminar_venta

  /** The (id_producto, cantidad) pairs `SELECT ... WHERE id_venta = id` gives. */
  function Reposicion(ls: seq<Linea>): (r: seq<(int, int)>)
    ensures |r| == |ls|
    ensures forall i :: 0 <= i < |r| ==> r[i] == (ls[i].idProducto, ls[i].cantidad)
  {
    if ls == [] then [] else Reposicion(ls[..|ls| - 1]) + [(ls[|ls| - 1].idProducto, ls[|ls| - 1].cantidad)]
  }

  /** How many units of product `k` the lines `ls` hold in total. */
  function Vendido(ls: seq<Linea>, k: int): int
  {
    if ls == [] then 0
    else Vendido(ls[..|ls| - 1], k) + (if ls[|ls| - 1].idProducto == k then ls[|ls| - 1].cantidad else 0)
  }

  lemma {:induction false} SumaParaReposicion(ls: seq<Linea>, k: int)
    ensures SumaPara(Reposicion(ls), k) == Vendido(ls, k)
  {
    if ls != [] {
      var n := |ls| - 1;
      assert Reposicion(ls)[..n] == Reposicion(ls[..n]);
      SumaParaReposicion(ls[..n], k);
    }
  }

  /** Lines that never name product `k` hold none of it. */
  lemma {:induction false} VendidoAjeno(ls: seq<Linea>, k: int)
    requires forall i :: 0 <= i < |ls| ==> ls[i].idProducto != k
    ensures Vendido(ls, k) == 0
  {
    if ls != [] {
      VendidoAjeno(ls[..|ls| - 1], k);
    }
  }

  /** `eliminar_venta`: every line's quantity goes back to its product, then
      the lines go, then the header. */
  function EliminarVentaSpec(t: Snapshot, id: int): Snapshot
  {
    t.(productos := AjustarTodos(t.productos, Reposicion(DeVenta(t.lineas, id))),
       lineas := SinVenta(t.lineas, id),
       ventas := t.ventas - {id})
  }

  method EliminarVenta(db: Database, id: int)
    requires db.Valid()
    modifies db
    ensures db.Valid()
    ensures db.Snap() == EliminarVentaSpec(old(db.Snap()), id)
  {
    var sel := Reposicion(DeVenta(db.lineas, id));
    var i := 0;
    while i < |sel|
      invariant 0 <= i <= |sel|
      invariant db.productos == AjustarTodos(old(db.productos), sel[..i])
      invariant db.precios == old(db.precios) && db.ventas == old(db.ventas) && db.lineas == old(db.lineas)
      invariant db.nextProducto == old(db.nextProducto) && db.nextVenta == old(db.nextVenta)
    {
      var (idProducto, cantidad) := sel[i];
      assert sel[..i + 1][..i] == sel[..i];
      db.productos := AjustarStock(db.productos, idProducto, cantidad);
      i := i + 1;
    }
    assert sel[..i] == sel;
    db.lineas := SinVenta(db.lineas, id);
    db.ventas := db.ventas - {id};
    EliminarVentaBienFormado(old(db.Snap()), id);
  }

  lemma EliminarVentaBienFormado(t: Snapshot, id: int)
    requires WellFormed(t)
    ensures WellFormed(EliminarVentaSpec(t, id))
  {
    var t' := EliminarVentaSpec(t, id);
    AjustarTodosCerrado(t.productos, Reposicion(DeVenta(t.lineas, id)));
    DeVentaSinVentaParten(t.lineas, id);
    forall i | 0 <= i < |t'.lineas| ensures t'.lineas[i].idVenta in t'.ventas {
      assert t'.lineas[i] in multiset(t'.lineas);
      assert t'.lineas[i] in multiset(t.lineas);
      assert t'.lineas[i] in t.lineas;
      var j :| 0 <= j < |t.lineas| && t'.lineas[i] == t.lineas[j];
    }
  }

  /** eliminar_venta gives each product back exactly the units the sale's lines
      hold (summing repeated lines), leaves names, prices and every product the
      sale does not name alone, removes the header and the sale's lines, and
      keeps every other sale's lines. */
  lemma EliminarVentaEfecto(t: Snapshot, id: int)
    requires WellFormed(t)
    ensures var t' := EliminarVentaSpec(t, id);
      && WellFormed(t')
      && t'.productos.Keys == t.productos.Keys
      && (forall k :: k in t.productos ==>
            t'.productos[k] == t.productos[k].(stock := t.productos[k].stock + Vendido(DeVenta(t.lineas, id), k)))
      && t'.precios == t.precios
      && t'.ventas == t.ventas - {id}
      && DeVenta(t'.lineas, id) == []
      && (forall k :: k != id ==> DeVenta(t'.lineas, k) == DeVenta(t.lineas, k))
  {
    var sel := DeVenta(t.lineas, id);
    EliminarVentaBienFormado(t, id);
    AjustarTodosCerrado(t.productos, Reposicion(sel));
    forall k | k in t.productos
      ensures SumaPara(Reposicion(sel), k) == Vendido(sel, k)
    {
      SumaParaReposicion(sel, k);
    }
    forall k ensures DeVenta(SinVenta(t.lineas, id), id) == [] && (k != id ==> DeVenta(SinVenta(t.lineas, id), k) == DeVenta(t.lineas, k)) {
      SinVentaConserva(t.lineas, id, k);
    }
  }

  /** A product that none of the sale's lines names keeps its stock. */
  lemma EliminarVentaNoTocaAjenos(t: Snapshot, id: int, k: int)
    requires WellFormed(t)
    requires k in t.productos
    requires forall i :: 0 <= i < |t.lineas| && t.lineas[i].idVenta == id ==> t.lineas[i].idProducto != k
    ensures k in EliminarVentaSpec(t, id).productos
    ensures EliminarVentaSpec(t, id).productos[k] == t.productos[k]
  {
    EliminarVentaEfecto(t, id);
    DeVentaNombra(t.lineas, id, k);
    VendidoAjeno(DeVenta(t.lineas, id), k);
  }

  /** If no line of sale `id` names product `k`, neither does its selection. */
  lemma {:induction false} DeVentaNombra(ls: seq<Linea>, id: int, k: int)
    requires forall i :: 0 <= i < |ls| && ls[i].idVenta == id ==> ls[i].idProducto != k
    ensures forall i :: 0 <= i < |DeVenta(ls, id)| ==> DeVenta(ls, id)[i].idProducto != k
  {
    if ls != [] {
      DeVentaNombra(ls[1..], id, k);
    }
  }

  // ---------------------------------------------------------------- listar

  /** A row of the sales listing. */
  datatype FilaVenta = FilaVenta(id: int, fecha: int, forma: string, totalProd: int, monto: int)

  function FilaVentaDe(t: Snapshot, id: int): FilaVenta
    requires id in t.ventas
  {
    var v := t.ventas[id];
    FilaVenta(id, v.fecha, v.formaPago, v.totalProductos, v.montoTotal)
  }

  /** `WHERE fecha BETWEEN desde AND hasta`, both ends included; no range
      selects every date. */
  predicate EnRango(rango: Option<(int, int)>, fecha: int)
  {
    match rango
    case None => true
    case Some((desde, hasta)) => desde <= fecha <= hasta
  }

  /** The ids of the sales the listing selects. */
  function Seleccion(t: Snapshot, rango: Option<(int, int)>): set<int>
  {
    set k | k in t.ventas && EnRango(rango, t.ventas[k].fecha)
  }

  function FilasVenta(t: Snapshot, ids: seq<int>): (r: seq<FilaVenta>)
    requires forall i :: 0 <= i < |ids| ==> ids[i] in t.ventas
    ensures |r| == |ids|
    ensures forall i :: 0 <= i < |r| ==> r[i] == FilaVentaDe(t, ids[i])
  {
    if ids == [] then []
    else
      assert forall i :: 1 <= i < |ids| ==> ids[1..][i - 1] == ids[i];
      [FilaVentaDe(t, ids[0])] + FilasVenta(t, ids[1..])
  }

  function Fecha(f: FilaVenta): int { f.fecha }

  /** Whether a listing has a row for sale `k`. */
  predicate Aparece(r: seq<FilaVenta>, k: int)
  {
    exists i :: 0 <= i < |r| && r[i].id == k
  }

  /** `listar(rango)`: the selected sales, newest first (equal dates by id). */
  function ListarVentas(t: Snapshot, rango: Option<(int, int)>): seq<FilaVenta>
  {
    SortDesc(FilasVenta(t, SortedIds(Seleccion(t, rango))), Fecha)
  }

  /** listar returns one row per selected sale and nothing else: every row is
      a sale in range with its own header data, every sale in range has a row,
      and the dates never increase. */
  lemma ListarVentasExacto(t: Snapshot, rango: Option<(int, int)>)
    ensures |ListarVentas(t, rango)| == |Seleccion(t, rango)|
    ensures SortedDesc(ListarVentas(t, rango), Fecha)
    ensures forall i :: 0 <= i < |ListarVentas(t, rango)| ==>
      var f := ListarVentas(t, rango)[i];
      f.id in t.ventas && EnRango(rango, t.ventas[f.id].fecha) && f == FilaVentaDe(t, f.id)
    ensures forall k :: k in t.ventas && EnRango(rango, t.ventas[k].fecha) ==> Aparece(ListarVentas(t, rango), k)
  {
    forall i | 0 <= i < |ListarVentas(t, rango)|
      ensures var f := ListarVentas(t, rango)[i];
        f.id in t.ventas && EnRango(rango, t.ventas[f.id].fecha) && f == FilaVentaDe(t, f.id)
    {
      ListarVentasFila(t, rango, i);
    }
    forall k | k in t.ventas && EnRango(rango, t.ventas[k].fecha) ensures Aparece(ListarVentas(t, rango), k) {
      ListarVentasCompleta(t, rango, k);
    }
  }

  lemma ListarVentasFila(t: Snapshot, rango: Option<(int, int)>, i: int)
    requires 0 <= i < |ListarVentas(t, rango)|
    ensures var f := ListarVentas(t, rango)[i];
      f.id in t.ventas && EnRango(rango, t.ventas[f.id].fecha) && f == FilaVentaDe(t, f.id)
  {
    var ids := SortedIds(Seleccion(t, rango));
    var rows := FilasVenta(t, ids);
    var r := ListarVentas(t, rango);
    SortDescDe(rows, Fecha, i);
    var j :| 0 <= j < |rows| && rows[j] == r[i];
    assert rows[j] == FilaVentaDe(t, ids[j]);
    assert ids[j] in Seleccion(t, rango);
  }

  lemma ListarVentasCompleta(t: Snapshot, rango: Option<(int, int)>, k: int)
    requires k in t.ventas && EnRango(rango, t.ventas[k].fecha)
    ensures Aparece(ListarVentas(t, rango), k)
  {
    var ids := SortedIds(Seleccion(t, rango));
    var rows := FilasVenta(t, ids);
    var r := ListarVentas(t, rango);
    assert k in Seleccion(t, rango);
    var j :| 0 <= j < |ids| && ids[j] == k;
    assert rows[j] in multiset(r);
    var i :| 0 <= i < |r| && r[i] == rows[j];
    assert r[i].id == k;
  }

  /** A deleted sale is no longer listed, whatever the range. */
  lemma EliminarVentaNoListada(t: Snapshot, id: int, rango: Option<(int, int)>)
    requires WellFormed(t)
    ensures !Aparece(ListarVentas(EliminarVentaSpec(t, id), rango), id)
  {
    ListarVentasExacto(EliminarVentaSpec(t, id), rango);
  }

  // ---------------------------------------------------------------- detalle

  /** A row of a sale's detail. */
  datatype FilaDetalle = FilaDetalle(nombre: string, cantidad: int, monto: int)

  /** The JOIN over `ls`: lines of sale `id` whose product still exists, with
      the product's current name. */
  function DetalleDe(t: Snapshot, ls: seq<Linea>, id: int): (r: seq<FilaDetalle>)
    ensures |r| <= |DeVenta(ls, id)|
  {
    if ls == [] then []
    else
      var rest := DetalleDe(t, ls[1..], id);
      var l := ls[0];
      if l.idVenta == id && l.idProducto in t.productos then
        [FilaDetalle(t.productos[l.idProducto].nombre, l.cantidad, l.monto)] + rest
      else rest
  }

  /** `detalle(id)`. */
  function Detalle(t: Snapshot, id: int): seq<FilaDetalle>
  {
    DetalleDe(t, t.lineas, id)
  }

  lemma {:induction false} DetalleDeConcat(t: Snapshot, a: seq<Linea>, b: seq<Linea>, id: int)
    ensures DetalleDe(t, a + b, id) == DetalleDe(t, a, id) + DetalleDe(t, b, id)
  {
    if a == [] {
      assert a + b == b;
    } else {
      assert (a + b)[0] == a[0] && (a + b)[1..] == a[1..] + b;
      DetalleDeConcat(t, a[1..], b, id);
    }
  }

  /** Lines that are not the sale's contribute nothing. */
  lemma {:induction false} DetalleDeAjeno(t: Snapshot, ls: seq<Linea>, id: int)
    requires forall i :: 0 <= i < |ls| ==> ls[i].idVenta != id
    ensures DetalleDe(t, ls, id) == []
  {
    if ls != [] {
      DetalleDeAjeno(t, ls[1..], id);
    }
  }

  /** The detail rows `items` produce when all their products exist. */
  function DetalleItems(productos: map<int, Producto>, items: seq<ItemVenta>): seq<FilaDetalle>
    requires forall i :: 0 <= i < |items| ==> items[i].idProducto in productos
  {
    if items == [] then []
    else
      assert forall i :: 1 <= i < |items| ==> items[1..][i - 1] == items[i];
      [FilaDetalle(productos[items[0].idProducto].nombre, items[0].cantidad, items[0].montoProducto)]
        + DetalleItems(productos, items[1..])
  }

  lemma {:induction false} DetalleDeLineasDe(t: Snapshot, id: int, items: seq<ItemVenta>)
    requires forall i :: 0 <= i < |items| ==> items[i].idProducto in t.productos
    ensures DetalleDe(t, LineasDe(id, items), id) == DetalleItems(t.productos, items)
  {
    if items != [] {
      assert LineasDe(id, items)[1..] == LineasDe(id, items[1..]);
      assert forall i :: 1 <= i < |items| ==> items[1..][i - 1] == items[i];
      DetalleDeLineasDe(t, id, items[1..]);
    }
  }

  /** Right after insertar_venta, detalle gives one row per item, in item
      order, with the product's name, the quantity and the amount. */
  lemma DetalleTrasInsertar(t: Snapshot, v: Venta, items: seq<ItemVenta>)
    requires WellFormed(t)
    requires forall i :: 0 <= i < |items| ==> items[i].idProducto in t.productos
    ensures var (t', id) := InsertarVentaSpec(t, v, items);
      Detalle(t', id) == DetalleItems(t.productos, items)
  {
    var (t', id) := InsertarVentaSpec(t, v, items);
    assert t'.productos == t.productos;
    assert t'.lineas == t.lineas + LineasDe(id, items);
    DetalleDeConcat(t', t.lineas, LineasDe(id, items), id);
    DetalleDeAjeno(t', t.lineas, id);
    DetalleDeLineasDe(t', id, items);
  }

  /** The lines that do not name product `p`, in order. */
  function SinProducto(ls: seq<Linea>, p: int): (r: seq<Linea>)
    ensures |r| <= |ls|
    ensures forall i :: 0 <= i < |r| ==> r[i].idProducto != p
    ensures forall l :: l in ls && l.idProducto != p ==> l in r
    ensures forall l :: l in r ==> l in ls
    ensures (forall i :: 0 <= i < |ls| ==> ls[i].idProducto != p) ==> r == ls
  {
    if ls == [] then []
    else if ls[0].idProducto == p then SinProducto(ls[1..], p)
    else [ls[0]] + SinProducto(ls[1..], p)
  }

  /** Dropping `p`'s lines keeps the others in their order: it distributes
      over concatenation, line by line. */
  lemma {:induction false} SinProductoConcat(a: seq<Linea>, b: seq<Linea>, p: int)
    ensures SinProducto(a + b, p) == SinProducto(a, p) + SinProducto(b, p)
  {
    if a == [] {
      assert a + b == b;
    } else {
      assert (a + b)[0] == a[0] && (a + b)[1..] == a[1..] + b;
      SinProductoConcat(a[1..], b, p);
    }
  }

  /** After deleting product `p`, a detail is the one of the lines not naming
      `p`: those lines keep their rows, and only `p`'s rows drop out. */
  lemma {:induction false} DetalleDeSinProducto(t: Snapshot, ls: seq<Linea>, id: int, p: int)
    ensures DetalleDe(EliminarSpec(t, p), ls, id) == DetalleDe(t, SinProducto(ls, p), id)
  {
    if ls != [] {
      DetalleDeSinProducto(t, ls[1..], id, p);
      if ls[0].idProducto != p {
        assert ([ls[0]] + SinProducto(ls[1..], p))[1..] == SinProducto(ls[1..], p);
      }
    }
  }

  /** A line whose product was deleted drops out of the detail, and every
      other line of the sale keeps its row. */
  lemma DetallePierdeBorrados(t: Snapshot, id: int, p: int)
    requires WellFormed(t)
    ensures Detalle(EliminarSpec(t, p), id) == DetalleDe(t, SinProducto(t.lineas, p), id)
    ensures |Detalle(EliminarSpec(t, p), id)| <= |Detalle(t, id)|
    ensures (forall i :: 0 <= i < |t.lineas| && t.lineas[i].idVenta == id ==> t.lineas[i].idProducto == p)
        ==> Detalle(EliminarSpec(t, p), id) == []
  {
    DetalleDeSinProducto(t, t.lineas, id, p);
    DetalleDeBorrado(t, t.lineas, id, p);
  }

  lemma {:induction false} DetalleDeBorrado(t: Snapshot, ls: seq<Linea>, id: int, p: int)
    ensures |DetalleDe(EliminarSpec(t, p), ls, id)| <= |DetalleDe(t, ls, id)|
    ensures (forall i :: 0 <= i < |ls| && ls[i].idVenta == id ==> ls[i].idProducto == p)
        ==> DetalleDe(EliminarSpec(t, p), ls, id) == []
  {
    if ls != [] {
      DetalleDeBorrado(t, ls[1..], id, p);
      if forall i :: 0 <= i < |ls| && ls[i].idVenta == id ==> ls[i].idProducto == p {
        assert forall i :: 0 <= i < |ls[1..]| && ls[1..][i].idVenta == id ==> ls[1..][i].idProducto == p by {
          forall i | 0 <= i < |ls[1..]| && ls[1..][i].idVenta == id ensures ls[1..][i].idProducto == p {
            assert ls[1..][i] == ls[i + 1];
          }
        }
      }
    }
  }
}
