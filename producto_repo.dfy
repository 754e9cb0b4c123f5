/** CRUD over the productos and precios tables, stock lookups and updates,
    and the filtered inventory listing. */
module ProductoRepo {
  import opened Ordering
  import opened Tables

  /** Products at or below this stock are listed as low stock. */
  const StockBajoMax := 30

  // ---------------------------------------------------------------- reads

  /** (id, nombre, stock) of the products `ids`, in the order of `ids`. */
  function Productos(t: Snapshot, ids: seq<int>): (r: seq<(int, string, int)>)
    requires forall i :: 0 <= i < |ids| ==> ids[i] in t.productos
    ensures |r| == |ids|
    ensures forall i :: 0 <= i < |r| ==>
      r[i] == (ids[i], t.productos[ids[i]].nombre, t.productos[ids[i]].stock)
  {
    if ids == [] then []
    else
      assert forall i :: 1 <= i < |ids| ==> ids[1..][i - 1] == ids[i];
      [(ids[0], t.productos[ids[0]].nombre, t.productos[ids[0]].stock)] + Productos(t, ids[1..])
  }

  /** `obtener_productos`: (id, nombre, stock) of every product, by id. */
  function ObtenerProductos(t: Snapshot): seq<(int, string, int)>
  {
    Productos(t, SortedIds(t.productos.Keys))
  }

  /** obtener_productos lists every product exactly once, with its own name
      and stock, in ascending id order. */
  lemma ObtenerProductosOrdenados(t: Snapshot)
    ensures |ObtenerProductos(t)| == |t.productos|
    ensures forall i, j :: 0 <= i < j < |ObtenerProductos(t)| ==> ObtenerProductos(t)[i].0 < ObtenerProductos(t)[j].0
    ensures forall i :: 0 <= i < |ObtenerProductos(t)| ==>
      var (id, nombre, stock) := ObtenerProductos(t)[i];
      id in t.productos && nombre == t.productos[id].nombre && stock == t.productos[id].stock
    ensures forall id :: id in t.productos ==> exists i :: 0 <= i < |ObtenerProductos(t)| && ObtenerProductos(t)[i].0 == id
  {
    var ids := SortedIds(t.productos.Keys);
    var r := ObtenerProductos(t);
    forall id | id in t.productos ensures exists i :: 0 <= i < |r| && r[i].0 == id {
      var i :| 0 <= i < |ids| && ids[i] == id;
      assert r[i].0 == id;
    }
  }

  /** `obtener_precio`: the net price, or 0 when the product has no price row. */
  function ObtenerPrecio(t: Snapshot, id: int): (r: int)
    ensures id in t.precios ==> r == t.precios[id].neto
    ensures id !in t.precios ==> r == 0
  {
    if id in t.precios then t.precios[id].neto else 0
  }

  /** `obtener_stock`: the stock, or 0 for an unknown product. */
  function ObtenerStock(t: Snapshot, id: int): (r: int)
    ensures id in t.productos ==> r == t.productos[id].stock
    ensures id !in t.productos ==> r == 0
  {
    if id in t.productos then t.productos[id].stock else 0
  }

  /** A row of the inventory listing; a missing price reads as 0. */
  datatype Fila = Fila(id: int, nombre: string, precio: int, stock: int)

  function FilaDe(t: Snapshot, id: int): Fila
    requires id in t.productos
  {
    Fila(id, t.productos[id].nombre, ObtenerPrecio(t, id), t.productos[id].stock)
  }

  /** The listing's WHERE clause: the low-stock filter wins over the
      missing-price filter, and without a flag every product is selected. */
  predicate Selecciona(t: Snapshot, stockBajo: bool, sinPrecio: bool, id: int)
  {
    && id in t.productos
    && if stockBajo then t.productos[id].stock <= StockBajoMax
       else if sinPrecio then id !in t.precios
       else true
  }

  /** The selected ids among `ids`, in the order of `ids`. */
  function Filtrar(t: Snapshot, ids: seq<int>, stockBajo: bool, sinPrecio: bool): (r: seq<int>)
    ensures forall x :: x in r <==> x in ids && Selecciona(t, stockBajo, sinPrecio, x)
    ensures Increasing(ids) ==> Increasing(r)
  {
    if ids == [] then []
    else
      var rest := Filtrar(t, ids[1..], stockBajo, sinPrecio);
      assert ids == [ids[0]] + ids[1..];
      if Selecciona(t, stockBajo, sinPrecio, ids[0]) then
        var r := [ids[0]] + rest;
        assert Increasing(ids) ==> Increasing(r) by {
          if Increasing(ids) {
            forall i, j | 0 <= i < j < |r| ensures r[i] < r[j] {
              if i == 0 {
                assert r[j] in ids[1..];
                var k :| 0 <= k < |ids[1..]| && ids[1..][k] == r[j];
                assert ids[k + 1] == r[j];
              } else {
                assert r[i] == rest[i - 1] && r[j] == rest[j - 1];
              }
            }
          }
        }
        r
      else rest
  }

  /** Whether some row of a listing is for product `id`. */
  predicate Listado(r: seq<Fila>, id: int)
  {
    exists k :: 0 <= k < |r| && r[k].id == id
  }

  /** The listing rows of the products `ids`, in the order of `ids`. */
  function Filas(t: Snapshot, ids: seq<int>): (r: seq<Fila>)
    requires forall x :: x in ids ==> x in t.productos
    ensures |r| == |ids|
    ensures forall i :: 0 <= i < |r| ==> r[i] == FilaDe(t, ids[i])
  {
    if ids == [] then [] else [FilaDe(t, ids[0])] + Filas(t, ids[1..])
  }

  /** `listar`: the inventory rows, ascending by id, filtered by one flag. */
  function Listar(t: Snapshot, stockBajo: bool, sinPrecio: bool): (r: seq<Fila>)
    ensures forall i, j :: 0 <= i < j < |r| ==> r[i].id < r[j].id
    ensures forall k :: 0 <= k < |r| ==> r[k].id in t.productos && r[k] == FilaDe(t, r[k].id)
    ensures stockBajo ==>
      forall id :: Listado(r, id) <==> id in t.productos && t.productos[id].stock <= StockBajoMax
    ensures !stockBajo && sinPrecio ==>
      forall id :: Listado(r, id) <==> id in t.productos && id !in t.precios
    ensures !stockBajo && !sinPrecio ==>
      forall id :: Listado(r, id) <==> id in t.productos
  {
    var ids := Filtrar(t, SortedIds(t.productos.Keys), stockBajo, sinPrecio);
    FilasListado(t, ids);
    Filas(t, ids)
  }

  /** The rows of `ids` list exactly the products of `ids`. */
  lemma FilasListado(t: Snapshot, ids: seq<int>)
    requires forall x :: x in ids ==> x in t.productos
    ensures forall id :: Listado(Filas(t, ids), id) <==> id in ids
  {
    var r := Filas(t, ids);
    forall id ensures Listado(r, id) <==> id in ids {
      if id in ids {
        var i :| 0 <= i < |ids| && ids[i] == id;
        assert r[i].id == id;
      }
    }
  }

  // ---------------------------------------------------------------- stock

  /** `UPDATE productos SET stock = stock + delta WHERE id_producto = id`: no
      lower bound, and an unknown id matches no row. */
  function AjustarStock(p: map<int, Producto>, id: int, delta: int): (r: map<int, Producto>)
    ensures r.Keys == p.Keys
    ensures forall k :: k in p && k != id ==> r[k] == p[k]
    ensures id in p ==> r[id] == p[id].(stock := p[id].stock + delta)
  {
    if id in p then p[id := p[id].(stock := p[id].stock + delta)] else p
  }

  /** A series of stock updates (product id, delta), applied in order. */
  function AjustarTodos(p: map<int, Producto>, ajustes: seq<(int, int)>): map<int, Producto>
  {
    if ajustes == [] then p
    else
      var n := |ajustes| - 1;
      AjustarStock(AjustarTodos(p, ajustes[..n]), ajustes[n].0, ajustes[n].1)
  }

  /** The sum of the deltas a series of updates applies to product `id`. */
  function SumaPara(ajustes: seq<(int, int)>, id: int): int
  {
    if ajustes == [] then 0
    else
      var n := |ajustes| - 1;
      SumaPara(ajustes[..n], id) + (if ajustes[n].0 == id then ajustes[n].1 else 0)
  }

  /** A series of updates changes each product's stock by the sum of its
      deltas, however they are interleaved, and changes nothing else. */
  lemma {:induction false} AjustarTodosCerrado(p: map<int, Producto>, ajustes: seq<(int, int)>)
    ensures AjustarTodos(p, ajustes).Keys == p.Keys
    ensures forall k :: k in p ==>
      AjustarTodos(p, ajustes)[k] == p[k].(stock := p[k].stock + SumaPara(ajustes, k))
  {
    if ajustes != [] {
      AjustarTodosCerrado(p, ajustes[..|ajustes| - 1]);
    }
  }

  function DescontarStockSpec(t: Snapshot, id: int, cantidad: int): Snapshot
  {
    t.(productos := AjustarStock(t.productos, id, -cantidad))
  }

  /** `descontar_stock`. */
  method DescontarStock(db: Database, id: int, cantidad: int)
    requires db.Valid()
    modifies db
    ensures db.Valid()
    ensures db.Snap() == DescontarStockSpec(old(db.Snap()), id, cantidad)
  {
    db.productos := AjustarStock(db.productos, id, -cantidad);
  }

  /** descontar_stock subtracts exactly `cantidad`, with no lower bound, from
      that product only; an unknown id changes nothing. */
  lemma DescontarStockEfecto(t: Snapshot, id: int, cantidad: int)
    requires WellFormed(t)
    ensures WellFormed(DescontarStockSpec(t, id, cantidad))
    ensures id in t.productos ==> ObtenerStock(DescontarStockSpec(t, id, cantidad), id) == ObtenerStock(t, id) - cantidad
    ensures forall k :: k != id ==> ObtenerStock(DescontarStockSpec(t, id, cantidad), k) == ObtenerStock(t, k)
    ensures id !in t.productos ==> DescontarStockSpec(t, id, cantidad) == t
  {
  }

  // ---------------------------------------------------------------- CRUD

  /** `crear`: a product row with the next id and its price row. */
  function CrearSpec(t: Snapshot, nombre: string, precio: int, stock: int, utilidad: int): Snapshot
  {
    var id := t.nextProducto;
    t.(productos := t.productos[id := Producto(nombre, stock)],
       precios := t.precios[id := Precio(precio, utilidad)],
       nextProducto := id + 1)
  }

  method Crear(db: Database, nombre: string, precio: int, stock: int)
    requires db.Valid()
    modifies db
    ensures db.Valid()
    ensures db.Snap() == CrearSpec(old(db.Snap()), nombre, precio, stock, db.utilidadDe(precio))
  {
    var id := db.nextProducto;
    db.productos := db.productos[id := Producto(nombre, stock)];
    db.nextProducto := id + 1;
    db.precios := db.precios[id := Precio(precio, db.utilidadDe(precio))];
    CrearBienFormado(old(db.Snap()), nombre, precio, stock, db.utilidadDe(precio));
  }

  lemma CrearBienFormado(t: Snapshot, nombre: string, precio: int, stock: int, utilidad: int)
    requires WellFormed(t)
    ensures WellFormed(CrearSpec(t, nombre, precio, stock, utilidad))
  {
  }

  /** crear adds exactly one product, under a fresh id that is listed last,
      whose price and stock read back as given; other products keep their rows
      and prices. */
  lemma CrearEfecto(t: Snapshot, nombre: string, precio: int, stock: int, utilidad: int)
    requires WellFormed(t)
    ensures t.nextProducto !in t.productos
    ensures CrearSpec(t, nombre, precio, stock, utilidad).productos.Keys == t.productos.Keys + {t.nextProducto}
    ensures ObtenerPrecio(CrearSpec(t, nombre, precio, stock, utilidad), t.nextProducto) == precio
    ensures ObtenerStock(CrearSpec(t, nombre, precio, stock, utilidad), t.nextProducto) == stock
    ensures forall k :: k in t.productos ==>
      CrearSpec(t, nombre, precio, stock, utilidad).productos[k] == t.productos[k] &&
      ObtenerPrecio(CrearSpec(t, nombre, precio, stock, utilidad), k) == ObtenerPrecio(t, k)
    ensures CrearSpec(t, nombre, precio, stock, utilidad).precios.Keys == t.precios.Keys + {t.nextProducto}
    ensures CrearSpec(t, nombre, precio, stock, utilidad).precios[t.nextProducto] == Precio(precio, utilidad)
    ensures forall k :: k in t.precios ==> CrearSpec(t, nombre, precio, stock, utilidad).precios[k] == t.precios[k]
  {
  }

  /** The product crear adds is the last one obtener_productos lists. */
  lemma CrearListaAlFinal(t: Snapshot, nombre: string, precio: int, stock: int, utilidad: int)
    requires WellFormed(t)
    ensures ObtenerProductos(CrearSpec(t, nombre, precio, stock, utilidad))
         == ObtenerProductos(t) + [(t.nextProducto, nombre, stock)]
  {
    ObtenerProductosConMayor(t, CrearSpec(t, nombre, precio, stock, utilidad), t.nextProducto);
  }

  /** Adding a product whose id exceeds every other one appends its row. */
  lemma ObtenerProductosConMayor(t: Snapshot, t': Snapshot, id: int)
    requires forall k :: k in t.productos ==> k < id
    requires id in t'.productos
    requires t'.productos.Keys == t.productos.Keys + {id}
    requires forall k :: k in t.productos ==> t'.productos[k] == t.productos[k]
    ensures ObtenerProductos(t') == ObtenerProductos(t) + [(id, t'.productos[id].nombre, t'.productos[id].stock)]
  {
    var ids := SortedIds(t.productos.Keys);
    assert SortedIds(t'.productos.Keys) == ids + [id] by {
      SortedIdsAddMax(t.productos.Keys, id);
    }
    assert Productos(t', ids) == Productos(t, ids) by {
      ProductosMismasFilas(t, t', ids);
    }
    assert Productos(t', ids + [id]) == Productos(t', ids) + [(id, t'.productos[id].nombre, t'.productos[id].stock)] by {
      ProductosAlFinal(t', ids, id);
    }
  }

  lemma ProductosMismasFilas(t: Snapshot, t': Snapshot, ids: seq<int>)
    requires forall i :: 0 <= i < |ids| ==>
      ids[i] in t.productos && ids[i] in t'.productos && t'.productos[ids[i]] == t.productos[ids[i]]
    ensures Productos(t', ids) == Productos(t, ids)
  {
    var a, b := Productos(t', ids), Productos(t, ids);
    assert forall i :: 0 <= i < |a| ==> a[i] == b[i];
  }

  lemma ProductosAlFinal(t: Snapshot, ids: seq<int>, id: int)
    requires forall i :: 0 <= i < |ids| ==> ids[i] in t.productos
    requires id in t.productos
    ensures Productos(t, ids + [id]) == Productos(t, ids) + [(id, t.productos[id].nombre, t.productos[id].stock)]
  {
    var a := Productos(t, ids + [id]);
    var b := Productos(t, ids) + [(id, t.productos[id].nombre, t.productos[id].stock)];
    assert forall i :: 0 <= i < |a| ==> a[i] == b[i];
  }

  /** `eliminar`: deletes the price row, then the product. */
  function EliminarSpec(t: Snapshot, id: int): Snapshot
  {
    t.(precios := t.precios - {id}, productos := t.productos - {id})
  }

  method Eliminar(db: Database, id: int)
    requires db.Valid()
    modifies db
    ensures db.Valid()
    ensures db.Snap() == EliminarSpec(old(db.Snap()), id)
  {
    db.precios := db.precios - {id};
    db.productos := db.productos - {id};
  }

  /** After eliminar the product appears in no listing and reads as stock 0
      and price 0; every other product keeps its row and price. */
  lemma EliminarEfecto(t: Snapshot, id: int, stockBajo: bool, sinPrecio: bool)
    requires WellFormed(t)
    ensures WellFormed(EliminarSpec(t, id))
    ensures !Listado(Listar(EliminarSpec(t, id), stockBajo, sinPrecio), id)
    ensures ObtenerStock(EliminarSpec(t, id), id) == 0 && ObtenerPrecio(EliminarSpec(t, id), id) == 0
    ensures forall k :: k != id ==>
      (k in EliminarSpec(t, id).productos <==> k in t.productos) &&
      (k in t.productos ==> EliminarSpec(t, id).productos[k] == t.productos[k]) &&
      ObtenerPrecio(EliminarSpec(t, id), k) == ObtenerPrecio(t, k)
    ensures EliminarSpec(t, id).precios.Keys == t.precios.Keys - {id}
    ensures forall k :: k in t.precios && k != id ==> EliminarSpec(t, id).precios[k] == t.precios[k]
  {
    EliminarFilas(t, id);
    EliminarNoListado(EliminarSpec(t, id), id, stockBajo, sinPrecio);
  }

  /** The row-level effect of eliminar on the two tables. */
  lemma EliminarFilas(t: Snapshot, id: int)
    requires WellFormed(t)
    ensures WellFormed(EliminarSpec(t, id))
    ensures ObtenerStock(EliminarSpec(t, id), id) == 0 && ObtenerPrecio(EliminarSpec(t, id), id) == 0
    ensures forall k :: k != id ==>
      (k in EliminarSpec(t, id).productos <==> k in t.productos) &&
      (k in t.productos ==> EliminarSpec(t, id).productos[k] == t.productos[k]) &&
      ObtenerPrecio(EliminarSpec(t, id), k) == ObtenerPrecio(t, k)
    ensures EliminarSpec(t, id).precios.Keys == t.precios.Keys - {id}
    ensures forall k :: k in t.precios && k != id ==> EliminarSpec(t, id).precios[k] == t.precios[k]
  {
  }

  /** A product that is not in the table is in no listing. */
  lemma EliminarNoListado(t: Snapshot, id: int, stockBajo: bool, sinPrecio: bool)
    requires id !in t.productos
    ensures !Listado(Listar(t, stockBajo, sinPrecio), id)
  {
    var r := Listar(t, stockBajo, sinPrecio);
    forall k | 0 <= k < |r| ensures r[k].id != id {
      assert r[k].id in t.productos;
    }
  }

  /** `actualizar`: two UPDATEs, each matching at most one row. */
  function ActualizarSpec(t: Snapshot, id: int, precio: int, stock: int, utilidad: int): Snapshot
  {
    t.(precios := if id in t.precios then t.precios[id := Precio(precio, utilidad)] else t.precios,
       productos := if id in t.productos then t.productos[id := t.productos[id].(stock := stock)] else t.productos)
  }

  method Actualizar(db: Database, id: int, precio: int, stock: int)
    requires db.Valid()
    modifies db
    ensures db.Valid()
    ensures db.Snap() == ActualizarSpec(old(db.Snap()), id, precio, stock, db.utilidadDe(precio))
  {
    if id in db.precios {
      db.precios := db.precios[id := Precio(precio, db.utilidadDe(precio))];
    }
    if id in db.productos {
      db.productos := db.productos[id := db.productos[id].(stock := stock)];
    }
  }

  /** actualizar sets the price and stock of an existing product; a product
      without a price row still has none; nothing else changes. */
  lemma ActualizarEfecto(t: Snapshot, id: int, precio: int, stock: int, utilidad: int)
    requires WellFormed(t)
    ensures WellFormed(ActualizarSpec(t, id, precio, stock, utilidad))
    ensures id in t.productos ==> ObtenerStock(ActualizarSpec(t, id, precio, stock, utilidad), id) == stock
    ensures id in t.precios ==> ObtenerPrecio(ActualizarSpec(t, id, precio, stock, utilidad), id) == precio
    ensures id !in t.precios ==> ObtenerPrecio(ActualizarSpec(t, id, precio, stock, utilidad), id) == 0
    ensures ActualizarSpec(t, id, precio, stock, utilidad).productos.Keys == t.productos.Keys
    ensures ActualizarSpec(t, id, precio, stock, utilidad).precios.Keys == t.precios.Keys
    ensures forall k :: k in t.productos && k != id ==>
      ActualizarSpec(t, id, precio, stock, utilidad).productos[k] == t.productos[k] &&
      ObtenerPrecio(ActualizarSpec(t, id, precio, stock, utilidad), k) == ObtenerPrecio(t, k)
    ensures id in t.precios ==> ActualizarSpec(t, id, precio, stock, utilidad).precios[id] == Precio(precio, utilidad)
    ensures forall k :: k in t.precios && k != id ==> ActualizarSpec(t, id, precio, stock, utilidad).precios[k] == t.precios[k]
  {
  }
}
