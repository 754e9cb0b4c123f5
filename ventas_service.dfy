/** The sale rules: turning the sales form into priced items, committing a
    sale and decrementing stock, and the lookups the service forwards. */
module VentasService {
  import opened Common
  import opened Numeric
  import opened Tables
  import opened ProductoRepo
  import opened VentasRepo

  // ---------------------------------------------------------------- quantity text

  predicate EsDigito(c: char) { '0' <= c <= '9' }

  predicate SoloDigitos(s: string)
  {
    forall i :: 0 <= i < |s| ==> EsDigito(s[i])
  }

  /** The decimal value of a string of ASCII digits. */
  function ValorDigitos(s: string): (r: nat)
    requires SoloDigitos(s)
  {
    if s == [] then 0
    else ValorDigitos(s[..|s| - 1]) * 10 + (s[|s| - 1] as int - '0' as int)
  }

  /** `int(texto)` on the quantity text: an optional sign followed by at least
      one ASCII digit; anything else is a ValueError, here `None`. */
  function ParseInt(s: string): Option<int>
  {
    if |s| > 1 && (s[0] == '-' || s[0] == '+') && SoloDigitos(s[1..]) then
      var v: int := ValorDigitos(s[1..]);
      Some(if s[0] == '-' then -v else v)
    else if |s| > 0 && SoloDigitos(s) then Some(ValorDigitos(s))
    else None
  }

  function Digito(d: nat): char
    requires d < 10
  {
    ('0' as int + d) as char
  }

  /** The decimal text of a natural number, as `str` writes it. */
  function FormatNat(n: nat): string
  {
    if n < 10 then [Digito(n)] else FormatNat(n / 10) + [Digito(n % 10)]
  }

  function FormatInt(n: int): string
  {
    if n < 0 then "-" + FormatNat(-n) else FormatNat(n)
  }

  lemma {:induction false} FormatNatDigitos(n: nat)
    ensures |FormatNat(n)| > 0 && SoloDigitos(FormatNat(n)) && ValorDigitos(FormatNat(n)) == n
  {
    if n >= 10 {
      FormatNatDigitos(n / 10);
      var s := FormatNat(n);
      assert s[..|s| - 1] == FormatNat(n / 10);
    }
  }

  /** Parsing reads back every number the form could display. */
  lemma ParseIntFormatInt(n: int)
    ensures ParseInt(FormatInt(n)) == Some(n)
  {
    if n < 0 {
      FormatNatDigitos(-n);
      assert FormatInt(n)[1..] == FormatNat(-n);
    } else {
      FormatNatDigitos(n);
    }
  }

  /** Text with a character that is neither a digit nor a leading sign does
      not parse; neither does empty text or a lone sign. */
  lemma ParseIntRechaza(s: string, i: int)
    requires 0 <= i < |s| && !EsDigito(s[i]) && !(i == 0 && (s[0] == '-' || s[0] == '+') && |s| > 1)
    ensures ParseInt(s) == None
  {
    if i > 0 {
      assert s[1..][i - 1] == s[i];
    }
  }

  // ---------------------------------------------------------------- preparar_items_venta

  /** One row of the sales form: the product, the quantity text the user
      typed, and the name and stock the form was built with. */
  datatype Entrada = Entrada(idProducto: int, texto: string, nombre: string, stock: int)

  /** `StockError`, naming the product that lacks stock. */
  datatype StockError = StockError(nombre: string)

  function Mensaje(e: StockError): string
  {
    "No hay suficiente stock de " + e.nombre
  }

  /** The quantity of an entry: the parsed text, or 0 when it does not parse. */
  function Cantidad(e: Entrada): int
  {
    match ParseInt(e.texto)
    case Some(n) => n
    case None => 0
  }

  /** An entry the loop skips without error. */
  predicate Omitida(e: Entrada) { Cantidad(e) <= 0 }

  /** An entry that raises StockError. */
  predicate Excede(e: Entrada) { !Omitida(e) && Cantidad(e) > e.stock }

  /** The line amount, VAT included: net price × 1.19 × quantity, rounded to
      the nearest unit with ties away from zero. */
  function MontoLinea(precio: int, cantidad: int): (r: int)
    ensures -50 <= 100 * r - precio * 119 * cantidad <= 50
    ensures 100 * r - precio * 119 * cantidad == 50 ==> precio * 119 * cantidad > 0
    ensures 100 * r - precio * 119 * cantidad == -50 ==> precio * 119 * cantidad < 0
  {
    RoundHalfUpDiv(precio * 119 * cantidad, 100)
  }

  function ItemDe(t: Snapshot, e: Entrada): ItemVenta
  {
    var c := Cantidad(e);
    ItemVenta(e.idProducto, e.nombre, c, MontoLinea(ObtenerPrecio(t, e.idProducto), c))
  }

  /** Puts already collected items in front of a result. */
  function Anteponer(items: seq<ItemVenta>, r: Result<seq<ItemVenta>, StockError>): Result<seq<ItemVenta>, StockError>
  {
    match r
    case Ok(rest) => Ok(items + rest)
    case Err(e) => Err(e)
  }

  lemma AnteponerAnteponer(a: seq<ItemVenta>, b: seq<ItemVenta>, r: Result<seq<ItemVenta>, StockError>)
    ensures Anteponer(a, Anteponer(b, r)) == Anteponer(a + b, r)
  {
    if r.Ok? {
      assert a + (b + r.value) == (a + b) + r.value;
    }
  }

  /** What `preparar_items_venta` returns or raises for the entries `es`, in
      the dictionary's iteration order. */
  function Preparar(t: Snapshot, es: seq<Entrada>): Result<seq<ItemVenta>, StockError>
  {
    if es == [] then Ok([])
    else if Omitida(es[0]) then Preparar(t, es[1..])
    else if Excede(es[0]) then Err(StockError(es[0].nombre))
    else Anteponer([ItemDe(t, es[0])], Preparar(t, es[1..]))
  }

  /** The items of the accepted entries, one per entry, in entry order. */
  function ItemsDe(t: Snapshot, es: seq<Entrada>): seq<ItemVenta>
  {
    if es == [] then []
    else if Omitida(es[0]) then ItemsDe(t, es[1..])
    else [ItemDe(t, es[0])] + ItemsDe(t, es[1..])
  }

  /** `preparar_items_venta`, the loop over the form. */
  method PrepararItemsVenta(db: Database, es: seq<Entrada>) returns (r: Result<seq<ItemVenta>, StockError>)
    ensures r == Preparar(db.Snap(), es)
  {
    var items: seq<ItemVenta> := [];
    var i := 0;
    assert es[0..] == es;
    match Preparar(db.Snap(), es) {
      case Ok(rest) => assert [] + rest == rest;
      case Err(_) =>
    }
    while i < |es|
      invariant 0 <= i <= |es|
      invariant Preparar(db.Snap(), es) == Anteponer(items, Preparar(db.Snap(), es[i..]))
    {
      var e := es[i];
      assert es[i..][0] == e && es[i..][1..] == es[i + 1..];
      var cantidad := Cantidad(e);
      if cantidad > 0 {
        if cantidad > e.stock {
          assert Preparar(db.Snap(), es[i..]) == Err(StockError(e.nombre));
          return Err(StockError(e.nombre));
        }
        var precioNeto := ObtenerPrecio(db.Snap(), e.idProducto);
        var monto := MontoLinea(precioNeto, cantidad);
        AnteponerAnteponer(items, [ItemVenta(e.idProducto, e.nombre, cantidad, monto)], Preparar(db.Snap(), es[i + 1..]));
        items := items + [ItemVenta(e.idProducto, e.nombre, cantidad, monto)];
      }
      i := i + 1;
    }
    assert es[i..] == [] && items + [] == items;
    r := Ok(items);
  }

  /** The batch fails exactly when some entry asks for more than its stock. */
  lemma {:induction false} PrepararFallaSsi(t: Snapshot, es: seq<Entrada>)
    ensures Preparar(t, es).Err? <==> exists i :: 0 <= i < |es| && Excede(es[i])
  {
    if es != [] {
      PrepararFallaSsi(t, es[1..]);
      if exists i :: 0 <= i < |es[1..]| && Excede(es[1..][i]) {
        var i :| 0 <= i < |es[1..]| && Excede(es[1..][i]);
        assert es[i + 1] == es[1..][i];
      }
      if exists i :: 0 <= i < |es| && Excede(es[i]) {
        var i :| 0 <= i < |es| && Excede(es[i]);
        if i > 0 {
          assert Excede(es[1..][i - 1]);
        }
      }
    }
  }

  /** The error names the first entry that asks for more than its stock,
      whatever follows it. */
  lemma {:induction false} PrepararPrimerExceso(t: Snapshot, es: seq<Entrada>, i: int)
    requires 0 <= i < |es| && Excede(es[i])
    requires forall j :: 0 <= j < i ==> !Excede(es[j])
    ensures Preparar(t, es) == Err(StockError(es[i].nombre))
  {
    if i > 0 {
      assert forall j :: 0 <= j < i - 1 ==> es[1..][j] == es[j + 1];
      PrepararPrimerExceso(t, es[1..], i - 1);
    }
  }

  /** Without an excessive entry the batch succeeds with one item per accepted
      entry, in entry order; skipped entries leave no trace. */
  lemma {:induction false} PrepararSinExceso(t: Snapshot, es: seq<Entrada>)
    requires forall i :: 0 <= i < |es| ==> !Excede(es[i])
    ensures Preparar(t, es) == Ok(ItemsDe(t, es))
  {
    if es != [] {
      assert forall i :: 0 <= i < |es[1..]| ==> es[1..][i] == es[i + 1];
      PrepararSinExceso(t, es[1..]);
    }
  }

  /** Every item comes from an accepted entry: same product and name, a
      quantity above 0, and the amount of that quantity at the current net
      price (0 when the product has no price row). */
  lemma {:induction false} ItemsDeAceptados(t: Snapshot, es: seq<Entrada>)
    ensures forall k :: 0 <= k < |ItemsDe(t, es)| ==>
      exists i :: 0 <= i < |es| && !Omitida(es[i]) && ItemsDe(t, es)[k] == ItemDe(t, es[i])
  {
    if es != [] {
      ItemsDeAceptados(t, es[1..]);
      var r := ItemsDe(t, es);
      var rest := ItemsDe(t, es[1..]);
      forall k | 0 <= k < |ItemsDe(t, es)|
        ensures exists i :: 0 <= i < |es| && !Omitida(es[i]) && ItemsDe(t, es)[k] == ItemDe(t, es[i])
      {
        if !Omitida(es[0]) && k == 0 {
          assert r[0] == ItemDe(t, es[0]);
          assert exists i :: 0 <= i < |es| && !Omitida(es[i]) && ItemsDe(t, es)[k] == ItemDe(t, es[i]);
        } else {
          var k' := if Omitida(es[0]) then k else k - 1;
          assert r[k] == rest[k'];
          var i :| 0 <= i < |es[1..]| && !Omitida(es[1..][i]) && rest[k'] == ItemDe(t, es[1..][i]);
          assert es[1..][i] == es[i + 1];
          assert 0 <= i + 1 < |es| && !Omitida(es[i + 1]) && r[k] == ItemDe(t, es[i + 1]);
          assert exists i :: 0 <= i < |es| && !Omitida(es[i]) && ItemsDe(t, es)[k] == ItemDe(t, es[i]);
        }
      }
      assert forall k :: 0 <= k < |ItemsDe(t, es)| ==>
        exists i :: 0 <= i < |es| && !Omitida(es[i]) && ItemsDe(t, es)[k] == ItemDe(t, es[i]);
    } else {
      assert ItemsDe(t, es) == [];
    }
  }

  /** What every returned item satisfies: it matches an entry of the form,
      0 < cantidad <= that entry's stock, and its amount is the priced line. */
  lemma PrepararItemsValidos(t: Snapshot, es: seq<Entrada>)
    requires Preparar(t, es).Ok?
    ensures forall k :: 0 <= k < |Preparar(t, es).value| ==>
      var it := Preparar(t, es).value[k];
      exists i :: 0 <= i < |es| &&
        it.idProducto == es[i].idProducto && it.nombre == es[i].nombre &&
        0 < it.cantidad <= es[i].stock &&
        it.montoProducto == MontoLinea(ObtenerPrecio(t, it.idProducto), it.cantidad)
  {
    PrepararFallaSsi(t, es);
    PrepararSinExceso(t, es);
    ItemsDeAceptados(t, es);
    var items := Preparar(t, es).value;
    forall k | 0 <= k < |items|
      ensures var it := items[k];
        exists i :: 0 <= i < |es| &&
          it.idProducto == es[i].idProducto && it.nombre == es[i].nombre &&
          0 < it.cantidad <= es[i].stock &&
          it.montoProducto == MontoLinea(ObtenerPrecio(t, it.idProducto), it.cantidad)
    {
      var i :| 0 <= i < |es| && !Omitida(es[i]) && items[k] == ItemDe(t, es[i]);
      assert !Excede(es[i]);
    }
  }

  /** A quantity of 5 against a stock of 3 raises StockError naming "X". */
  lemma PrepararStockInsuficiente(t: Snapshot)
    ensures Preparar(t, [Entrada(1, "5", "X", 3)]) == Err(StockError("X"))
  {
    assert ValorDigitos("5") == 5;
  }

  /** A quantity equal to the stock is accepted. */
  lemma PrepararIgualStock(t: Snapshot)
    ensures Preparar(t, [Entrada(1, "3", "X", 3)]).Ok?
    ensures |Preparar(t, [Entrada(1, "3", "X", 3)]).value| == 1
    ensures Preparar(t, [Entrada(1, "3", "X", 3)]).value[0].cantidad == 3
  {
    var es := [Entrada(1, "3", "X", 3)];
    assert "3"[..0] == [];
    assert ValorDigitos("3") == 3;
    assert Cantidad(es[0]) == 3;
    assert es[1..] == [];
    assert Preparar(t, es) == Anteponer([ItemDe(t, es[0])], Ok([]));
    assert [ItemDe(t, es[0])] + [] == [ItemDe(t, es[0])];
  }

  /** Two units at net price 200 make one item of amount 476. */
  lemma PrepararCorrecto(t: Snapshot)
    requires 2 in t.precios && t.precios[2].neto == 200
    ensures Preparar(t, [Entrada(2, "2", "Y", 5)]) == Ok([ItemVenta(2, "Y", 2, 476)])
  {
    var es := [Entrada(2, "2", "Y", 5)];
    assert "2"[..0] == [];
    assert ValorDigitos("2") == 2;
    assert ParseInt("2") == Some(2);
    assert Cantidad(es[0]) == 2;
    assert ObtenerPrecio(t, 2) == 200;
    assert RoundHalfUpDiv(47600, 100) == 476;
    assert ItemDe(t, es[0]) == ItemVenta(2, "Y", 2, 476);
    assert es[1..] == [];
    assert Preparar(t, es) == Anteponer([ItemDe(t, es[0])], Ok([]));
    assert [ItemDe(t, es[0])] + [] == [ItemVenta(2, "Y", 2, 476)];
  }

  /** Blank, non-numeric, zero and negative quantities are all skipped. */
  lemma PrepararOmite(t: Snapshot)
    ensures Preparar(t, [Entrada(1, "", "A", 9), Entrada(2, "dos", "B", 9), Entrada(3, "0", "C", 9), Entrada(4, "-2", "D", 9)]) == Ok([])
  {
    var es := [Entrada(1, "", "A", 9), Entrada(2, "dos", "B", 9), Entrada(3, "0", "C", 9), Entrada(4, "-2", "D", 9)];
    ParseIntRechaza("dos", 0);
    assert "0"[..0] == [] && "2"[..0] == [];
    assert ValorDigitos("0") == 0;
    assert ValorDigitos("2") == 2;
    assert "-2"[1..] == "2";
    assert ParseInt("") == None && ParseInt("0") == Some(0) && ParseInt("-2") == Some(-2);
    assert Omitida(es[0]) && Omitida(es[1]) && Omitida(es[2]) && Omitida(es[3]);
    assert Preparar(t, es[3..]) == Preparar(t, []) by { assert es[3..][1..] == []; }
    assert Preparar(t, es[2..]) == Preparar(t, es[3..]) by { assert es[2..][1..] == es[3..]; }
    assert Preparar(t, es[1..]) == Preparar(t, es[2..]) by { assert es[1..][1..] == es[2..]; }
  }

  // ---------------------------------------------------------------- crear_venta

  /** `sum(i["cantidad"] for i in items)`. */
  function SumaCantidades(items: seq<ItemVenta>): int
  {
    if items == [] then 0 else items[0].cantidad + SumaCantidades(items[1..])
  }

  /** `sum(i["monto_producto"] for i in items)`. */
  function SumaMontos(items: seq<ItemVenta>): int
  {
    if items == [] then 0 else items[0].montoProducto + SumaMontos(items[1..])
  }

  /** The stock updates the loop of `descontar_stock` calls performs. */
  function Descuentos(items: seq<ItemVenta>): (r: seq<(int, int)>)
    ensures |r| == |items|
    ensures forall i :: 0 <= i < |r| ==> r[i] == (items[i].idProducto, -items[i].cantidad)
  {
    if items == [] then []
    else Descuentos(items[..|items| - 1]) + [(items[|items| - 1].idProducto, -items[|items| - 1].cantidad)]
  }

  /** How many units of product `k` the items ask for in total. */
  function Pedido(items: seq<ItemVenta>, k: int): int
  {
    if items == [] then 0
    else Pedido(items[..|items| - 1], k) + (if items[|items| - 1].idProducto == k then items[|items| - 1].cantidad else 0)
  }

  /** A product no item names is asked for 0 units. */
  lemma {:induction false} PedidoAjeno(items: seq<ItemVenta>, k: int)
    requires forall i :: 0 <= i < |items| ==> items[i].idProducto != k
    ensures Pedido(items, k) == 0
  {
    if items != [] {
      PedidoAjeno(items[..|items| - 1], k);
    }
  }

  /** `crear_venta`: the header with the totals and the lines, then one stock
      decrement per item; returns the new state and the sale id. */
  function CrearVentaSpec(t: Snapshot, fecha: int, formaPago: string, items: seq<ItemVenta>): (Snapshot, int)
  {
    var (t1, id) := VentasRepo.InsertarVentaSpec(t, Venta(fecha, formaPago, SumaMontos(items), SumaCantidades(items)), items);
    (t1.(productos := AjustarTodos(t1.productos, Descuentos(items))), id)
  }

  method CrearVenta(db: Database, fecha: int, formaPago: string, items: seq<ItemVenta>) returns (id: int)
    requires db.Valid()
    modifies db
    ensures db.Valid()
    ensures (db.Snap(), id) == CrearVentaSpec(old(db.Snap()), fecha, formaPago, items)
  {
    var totalProd := SumaCantidades(items);
    var totalMonto := SumaMontos(items);
    id := VentasRepo.InsertarVenta(db, Venta(fecha, formaPago, totalMonto, totalProd), items);
    ghost var t1 := db.Snap();
    var descuentos := Descuentos(items);
    var i := 0;
    while i < |items|
      invariant 0 <= i <= |items|
      invariant db.Valid()
      invariant db.Snap() == t1.(productos := AjustarTodos(t1.productos, descuentos[..i]))
    {
      DescuentoPaso(t1.productos, items, i);
      ProductoRepo.DescontarStock(db, items[i].idProducto, items[i].cantidad);
      i := i + 1;
    }
    assert descuentos[..i] == descuentos;
  }

  /** One more discount of the loop is one more stock update. */
  lemma DescuentoPaso(p: map<int, Producto>, items: seq<ItemVenta>, i: int)
    requires 0 <= i < |items|
    ensures AjustarTodos(p, Descuentos(items)[..i + 1])
         == AjustarStock(AjustarTodos(p, Descuentos(items)[..i]), items[i].idProducto, -items[i].cantidad)
  {
    var d := Descuentos(items);
    assert d[..i + 1][..i] == d[..i];
    assert d[..i + 1][i] == (items[i].idProducto, -items[i].cantidad);
  }

  lemma {:induction false} SumaParaDescuentos(items: seq<ItemVenta>, k: int)
    ensures SumaPara(Descuentos(items), k) == -Pedido(items, k)
  {
    if items != [] {
      var n := |items| - 1;
      assert Descuentos(items)[..n] == Descuentos(items[..n]);
      SumaParaDescuentos(items[..n], k);
    }
  }

  lemma {:induction false} VendidoLineasDe(id: int, items: seq<ItemVenta>, k: int)
    ensures VentasRepo.Vendido(VentasRepo.LineasDe(id, items), k) == Pedido(items, k)
  {
    if items != [] {
      var n := |items| - 1;
      assert VentasRepo.LineasDe(id, items)[..n] == VentasRepo.LineasDe(id, items[..n]);
      VendidoLineasDe(id, items[..n], k);
    }
  }

  /** crear_venta writes a header whose totals are the sums of the items, one
      line per item, and lowers each product's stock by exactly the units the
      items ask of it, without checking stock again; prices and names stay. */
  lemma CrearVentaEfecto(t: Snapshot, fecha: int, formaPago: string, items: seq<ItemVenta>)
    requires WellFormed(t)
    ensures var (t', id) := CrearVentaSpec(t, fecha, formaPago, items);
      && id !in t.ventas
      && WellFormed(t')
      && t'.ventas == t.ventas[id := Venta(fecha, formaPago, SumaMontos(items), SumaCantidades(items))]
      && VentasRepo.DeVenta(t'.lineas, id) == VentasRepo.LineasDe(id, items)
      && (forall k :: k != id ==> VentasRepo.DeVenta(t'.lineas, k) == VentasRepo.DeVenta(t.lineas, k))
      && (forall k :: k in t.ventas ==> k in t'.ventas && t'.ventas[k] == t.ventas[k])
      && t'.productos.Keys == t.productos.Keys
      && (forall k :: k in t.productos ==>
            t'.productos[k] == t.productos[k].(stock := t.productos[k].stock - Pedido(items, k)))
      && t'.precios == t.precios
  {
    var v := Venta(fecha, formaPago, SumaMontos(items), SumaCantidades(items));
    VentasRepo.InsertarVentaEfecto(t, v, items);
    var (t1, id) := VentasRepo.InsertarVentaSpec(t, v, items);
    AjustarTodosCerrado(t1.productos, Descuentos(items));
    forall k | k in t.productos ensures SumaPara(Descuentos(items), k) == -Pedido(items, k) {
      SumaParaDescuentos(items, k);
    }
  }

  /** `crear_venta` leaves the row of a product no item names as it was. */
  lemma CrearVentaNoTocaAjenos(t: Snapshot, fecha: int, formaPago: string, items: seq<ItemVenta>, k: int)
    requires WellFormed(t)
    requires k in t.productos
    requires forall i :: 0 <= i < |items| ==> items[i].idProducto != k
    ensures k in CrearVentaSpec(t, fecha, formaPago, items).0.productos
    ensures CrearVentaSpec(t, fecha, formaPago, items).0.productos[k] == t.productos[k]
  {
    CrearVentaEfecto(t, fecha, formaPago, items);
    PedidoAjeno(items, k);
  }

  /** The service's own example: items of 238 and 476 give a header of 714
      for 3 units, and products 1 and 3 lose 1 and 2 units. */
  lemma CrearVentaEjemplo(t: Snapshot, fecha: int)
    requires WellFormed(t) && 1 in t.productos && 3 in t.productos
    ensures var (t', id) := CrearVentaSpec(t, fecha, "tarjeta", [ItemVenta(1, "A", 1, 238), ItemVenta(3, "B", 2, 476)]);
      && 1 in t'.productos && 3 in t'.productos && id in t'.ventas
      && t'.ventas[id] == Venta(fecha, "tarjeta", 714, 3)
      && t'.productos[1].stock == t.productos[1].stock - 1
      && t'.productos[3].stock == t.productos[3].stock - 2
  {
    var items := [ItemVenta(1, "A", 1, 238), ItemVenta(3, "B", 2, 476)];
    CrearVentaEfecto(t, fecha, "tarjeta", items);
    assert items[..1] == [ItemVenta(1, "A", 1, 238)] && items[..1][..0] == [];
    assert items[1..][1..] == [];
    assert Pedido(items, 1) == 1 && Pedido(items, 3) == 2;
    assert SumaMontos(items) == 714 && SumaCantidades(items) == 3;
  }

  // ---------------------------------------------------------------- round trip

  lemma {:induction false} SinVentaConcat(a: seq<Linea>, b: seq<Linea>, id: int)
    ensures VentasRepo.SinVenta(a + b, id) == VentasRepo.SinVenta(a, id) + VentasRepo.SinVenta(b, id)
  {
    if a == [] {
      assert a + b == b;
    } else {
      assert (a + b)[0] == a[0] && (a + b)[1..] == a[1..] + b;
      SinVentaConcat(a[1..], b, id);
    }
  }

  lemma {:induction false} SinVentaAjena(ls: seq<Linea>, id: int)
    requires forall i :: 0 <= i < |ls| ==> ls[i].idVenta != id
    ensures VentasRepo.SinVenta(ls, id) == ls
  {
    if ls != [] {
      SinVentaAjena(ls[1..], id);
      assert ls == [ls[0]] + ls[1..];
    }
  }

  lemma {:induction false} SinVentaPropia(id: int, items: seq<ItemVenta>)
    ensures VentasRepo.SinVenta(VentasRepo.LineasDe(id, items), id) == []
  {
    if items != [] {
      assert VentasRepo.LineasDe(id, items)[1..] == VentasRepo.LineasDe(id, items[1..]);
      SinVentaPropia(id, items[1..]);
    }
  }

  /** crear_venta followed by eliminar_venta on the id it returned gives back
      every product's stock and leaves the sales and lines as they were. */
  lemma CrearEliminarVenta(t: Snapshot, fecha: int, formaPago: string, items: seq<ItemVenta>)
    requires WellFormed(t)
    ensures var (t1, id) := CrearVentaSpec(t, fecha, formaPago, items);
      var t2 := VentasRepo.EliminarVentaSpec(t1, id);
      t2.productos == t.productos && t2.precios == t.precios &&
      t2.ventas == t.ventas && t2.lineas == t.lineas
  {
    CrearEliminarProductos(t, fecha, formaPago, items);
    CrearEliminarVentas(t, fecha, formaPago, items);
  }

  /** The restock undoes the discount, product by product. */
  lemma CrearEliminarProductos(t: Snapshot, fecha: int, formaPago: string, items: seq<ItemVenta>)
    requires WellFormed(t)
    ensures var (t1, id) := CrearVentaSpec(t, fecha, formaPago, items);
      var t2 := VentasRepo.EliminarVentaSpec(t1, id);
      t2.productos == t.productos && t2.precios == t.precios
  {
    var (t1, id) := CrearVentaSpec(t, fecha, formaPago, items);
    var t2 := VentasRepo.EliminarVentaSpec(t1, id);
    CrearVentaEfecto(t, fecha, formaPago, items);
    VentasRepo.EliminarVentaEfecto(t1, id);
    forall k | k in t.productos ensures t2.productos[k] == t.productos[k] {
      VendidoLineasDe(id, items, k);
    }
  }

  /** Deleting the new sale removes exactly its header and its lines. */
  lemma CrearEliminarVentas(t: Snapshot, fecha: int, formaPago: string, items: seq<ItemVenta>)
    requires WellFormed(t)
    ensures var (t1, id) := CrearVentaSpec(t, fecha, formaPago, items);
      var t2 := VentasRepo.EliminarVentaSpec(t1, id);
      t2.ventas == t.ventas && t2.lineas == t.lineas
  {
    var (t1, id) := CrearVentaSpec(t, fecha, formaPago, items);
    CrearVentaEfecto(t, fecha, formaPago, items);
    VentasRepo.EliminarVentaEfecto(t1, id);
    assert t.lineas + VentasRepo.LineasDe(id, items) == t1.lineas;
    SinVentaConcat(t.lineas, VentasRepo.LineasDe(id, items), id);
    SinVentaAjena(t.lineas, id);
    SinVentaPropia(id, items);
  }

  // ---------------------------------------------------------------- forwarding

  /** `VentasService.eliminar_venta`: the repository's delete. */
  method EliminarVenta(db: Database, id: int)
    requires db.Valid()
    modifies db
    ensures db.Valid()
    ensures db.Snap() == VentasRepo.EliminarVentaSpec(old(db.Snap()), id)
  {
    VentasRepo.EliminarVenta(db, id);
  }

  /** `obtener_ventas`: the repository's listing. */
  function ObtenerVentas(t: Snapshot, rango: Option<(int, int)>): (r: seq<VentasRepo.FilaVenta>)
    ensures |r| == |VentasRepo.Seleccion(t, rango)|
    ensures Ordering.SortedDesc(r, VentasRepo.Fecha)
    ensures forall i :: 0 <= i < |r| ==>
      r[i].id in t.ventas && VentasRepo.EnRango(rango, t.ventas[r[i].id].fecha) && r[i] == VentasRepo.FilaVentaDe(t, r[i].id)
    ensures forall k :: k in t.ventas && VentasRepo.EnRango(rango, t.ventas[k].fecha) ==> VentasRepo.Aparece(r, k)
  {
    VentasRepo.ListarVentasExacto(t, rango);
    VentasRepo.ListarVentas(t, rango)
  }

  /** `ver_detalle_venta`: the repository's detail. */
  function VerDetalleVenta(t: Snapshot, id: int): seq<VentasRepo.FilaDetalle>
  {
    VentasRepo.Detalle(t, id)
  }
}
