/** The four tables of the store (productos, precios, ventas,
    ventas_producto) and the id sequences that number their rows. */
module Tables {

  /** A row of `productos`, keyed by id_producto. */
  datatype Producto = Producto(nombre: string, stock: int)

  /** A row of `precios`, keyed by id_producto: the net price and the net
      profit per unit. */
  datatype Precio = Precio(neto: int, utilidad: int)

  /** A row of `ventas` (a sale header), keyed by id_venta. `fecha` is a day
      number. */
  datatype Venta = Venta(fecha: int, formaPago: string, montoTotal: int, totalProductos: int)

  /** A row of `ventas_producto` (a sale line). */
  datatype Linea = Linea(idVenta: int, idProducto: int, cantidad: int, monto: int)

  /** The whole store at one moment. `nextProducto` and `nextVenta` are the
      next values of the two id sequences. */
  datatype Snapshot = Snapshot(
    productos: map<int, Producto>,
    precios: map<int, Precio>,
    ventas: map<int, Venta>,
    lineas: seq<Linea>,
    nextProducto: int,
    nextVenta: int)

  /** The store's integrity rules: generated ids are below the sequence's next
      value, every price row belongs to a product, and every line belongs to a
      sale. */
  predicate WellFormed(t: Snapshot)
  {
    && (forall id :: id in t.productos ==> id < t.nextProducto)
    && t.precios.Keys <= t.productos.Keys
    && (forall id :: id in t.ventas ==> id < t.nextVenta)
    && (forall i :: 0 <= i < |t.lineas| ==> t.lineas[i].idVenta in t.ventas)
  }

  /** The store with no rows, both sequences starting at 1. */
  const Empty := Snapshot(map[], map[], map[], [], 1, 1)

  /** The database the repository functions share. `utilidadDe` stands for the
      schema's rule that derives a price row's utilidad_neta from its
      precio_neto (the repository never writes that column itself). */
  class Database {
    var productos: map<int, Producto>
    var precios: map<int, Precio>
    var ventas: map<int, Venta>
    var lineas: seq<Linea>
    var nextProducto: int
    var nextVenta: int
    const utilidadDe: int -> int

    /** The current contents of all tables. */
    function Snap(): Snapshot
      reads this
    {
      Snapshot(productos, precios, ventas, lineas, nextProducto, nextVenta)
    }

    ghost predicate Valid()
      reads this
    {
      WellFormed(Snap())
    }

    constructor (utilidadDe: int -> int)
      ensures Valid()
      ensures Snap() == Empty
      ensures this.utilidadDe == utilidadDe
    {
      productos, precios, ventas, lineas := map[], map[], map[], [];
      nextProducto, nextVenta := 1, 1;
      this.utilidadDe := utilidadDe;
    }
  }
}
