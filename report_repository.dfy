/** The report queries, read as plain arithmetic over the tables: the lines of
    sales dated inside a window, joined to the current prices and products,
    summed, counted, grouped by product name, sorted and cut. */
module ReportRepository {
  import opened Common
  import opened Ordering
  import opened Tables
  import VentasRepo

  // ---------------------------------------------------------------- the window

  /** `JOIN ventas v ... WHERE v.fecha BETWEEN desde AND hasta`. */
  predicate EnVentana(ventas: map<int, Venta>, desde: int, hasta: int, l: Linea)
  {
    l.idVenta in ventas && desde <= ventas[l.idVenta].fecha <= hasta
  }

  function EnRangoDe(ventas: map<int, Venta>, ls: seq<Linea>, desde: int, hasta: int): (r: seq<Linea>)
    ensures |r| <= |ls|
    ensures forall i :: 0 <= i < |r| ==> EnVentana(ventas, desde, hasta, r[i])
  {
    if ls == [] then []
    else if EnVentana(ventas, desde, hasta, ls[0]) then [ls[0]] + EnRangoDe(ventas, ls[1..], desde, hasta)
    else EnRangoDe(ventas, ls[1..], desde, hasta)
  }

  /** The lines every report reads. */
  function LineasEnRango(t: Snapshot, desde: int, hasta: int): seq<Linea>
  {
    EnRangoDe(t.ventas, t.lineas, desde, hasta)
  }

  lemma {:induction false} EnRangoDeConcat(ventas: map<int, Venta>, a: seq<Linea>, b: seq<Linea>, desde: int, hasta: int)
    ensures EnRangoDe(ventas, a + b, desde, hasta) == EnRangoDe(ventas, a, desde, hasta) + EnRangoDe(ventas, b, desde, hasta)
  {
    if a == [] {
      assert a + b == b;
    } else {
      assert (a + b)[0] == a[0] && (a + b)[1..] == a[1..] + b;
      EnRangoDeConcat(ventas, a[1..], b, desde, hasta);
    }
  }

  /** Lines outside the window contribute nothing. */
  lemma {:induction false} EnRangoDeFuera(ventas: map<int, Venta>, ls: seq<Linea>, desde: int, hasta: int)
    requires forall i :: 0 <= i < |ls| ==> !EnVentana(ventas, desde, hasta, ls[i])
    ensures EnRangoDe(ventas, ls, desde, hasta) == []
  {
    if ls != [] {
      EnRangoDeFuera(ventas, ls[1..], desde, hasta);
    }
  }

  /** Headers that agree on the lines' sales select the same lines. */
  lemma {:induction false} EnRangoDeMismasVentas(v1: map<int, Venta>, v2: map<int, Venta>, ls: seq<Linea>, desde: int, hasta: int)
    requires forall i :: 0 <= i < |ls| ==> ls[i].idVenta in v1 && ls[i].idVenta in v2 && v1[ls[i].idVenta] == v2[ls[i].idVenta]
    ensures EnRangoDe(v1, ls, desde, hasta) == EnRangoDe(v2, ls, desde, hasta)
  {
    if ls != [] {
      assert forall i :: 0 <= i < |ls[1..]| ==> ls[1..][i] == ls[i + 1];
      EnRangoDeMismasVentas(v1, v2, ls[1..], desde, hasta);
    }
  }

  /** The sale headers the window counts. */
  function VentasEnRango(t: Snapshot, desde: int, hasta: int): set<int>
  {
    set k | k in t.ventas && desde <= t.ventas[k].fecha <= hasta
  }

  // ---------------------------------------------------------------- fetch_summary

  /** `SUM(vp.cantidad * pr.precio_neto)` over the lines that have a price
      row, with COALESCE making the empty sum 0. */
  function Neto(precios: map<int, Precio>, ls: seq<Linea>): int
  {
    if ls == [] then 0
    else (if ls[0].idProducto in precios then ls[0].cantidad * precios[ls[0].idProducto].neto else 0) + Neto(precios, ls[1..])
  }

  lemma {:induction false} NetoConcat(precios: map<int, Precio>, a: seq<Linea>, b: seq<Linea>)
    ensures Neto(precios, a + b) == Neto(precios, a) + Neto(precios, b)
  {
    if a == [] {
      assert a + b == b;
    } else {
      assert (a + b)[0] == a[0] && (a + b)[1..] == a[1..] + b;
      NetoConcat(precios, a[1..], b);
    }
  }

  /** Lines without a price row add nothing; with none priced the sum is 0. */
  lemma {:induction false} NetoSinPrecios(precios: map<int, Precio>, ls: seq<Linea>)
    requires forall i :: 0 <= i < |ls| ==> ls[i].idProducto !in precios
    ensures Neto(precios, ls) == 0
  {
    if ls != [] {
      NetoSinPrecios(precios, ls[1..]);
    }
  }

  /** The row `fetch_summary` returns: numeric sums and a numeric quotient. */
  datatype ResumenBruto = ResumenBruto(ventasNetas: real, cantidadVentas: int, ticketPromedio: real)

  /** `fetch_summary(desde, hasta)`: net sales, the number of headers in the
      window, and the average ticket, 0 when there is no sale. */
  function FetchSummary(t: Snapshot, desde: int, hasta: int): (r: ResumenBruto)
    ensures r.cantidadVentas >= 0
    ensures r.cantidadVentas == 0 ==> r.ticketPromedio == 0.0
    ensures r.cantidadVentas > 0 ==> r.ticketPromedio * r.cantidadVentas as real == r.ventasNetas
  {
    var netas := Neto(t.precios, LineasEnRango(t, desde, hasta)) as real;
    var n := |VentasEnRango(t, desde, hasta)|;
    ResumenBruto(netas, n, if n == 0 then 0.0 else netas / n as real)
  }

  /** A window without sales has the all-zero summary: every line belongs to
      some header, and none of those headers is dated inside the window. */
  lemma ResumenSinVentas(t: Snapshot, desde: int, hasta: int)
    requires WellFormed(t)
    requires VentasEnRango(t, desde, hasta) == {}
    ensures FetchSummary(t, desde, hasta) == ResumenBruto(0.0, 0, 0.0)
  {
    forall i | 0 <= i < |t.lineas| ensures !EnVentana(t.ventas, desde, hasta, t.lineas[i]) {
      var k := t.lineas[i].idVenta;
      assert k !in VentasEnRango(t, desde, hasta);
    }
    EnRangoDeFuera(t.ventas, t.lineas, desde, hasta);
  }

  // ---------------------------------------------------------------- the top lists

  /** What a top list ranks. */
  datatype Medida = PorCantidad | PorIngresos | PorUtilidad

  /** A (product name, total) row. */
  datatype Total = Total(nombre: string, valor: int)

  function Valor(g: Total): int { g.valor }

  /** What one line adds to a ranking, after the query's joins: quantity needs
      the product, revenue and profit need the product and its price row. */
  function Aporte(productos: map<int, Producto>, precios: map<int, Precio>, l: Linea, m: Medida): Option<Total>
  {
    var id := l.idProducto;
    if id !in productos then None
    else match m
      case PorCantidad => Some(Total(productos[id].nombre, l.cantidad))
      case PorIngresos => if id in precios then Some(Total(productos[id].nombre, l.cantidad * precios[id].neto)) else None
      case PorUtilidad => if id in precios then Some(Total(productos[id].nombre, l.cantidad * precios[id].utilidad)) else None
  }

  function Aportes(productos: map<int, Producto>, precios: map<int, Precio>, ls: seq<Linea>, m: Medida): seq<Total>
  {
    if ls == [] then []
    else
      var rest := Aportes(productos, precios, ls[1..], m);
      match Aporte(productos, precios, ls[0], m)
      case Some(a) => [a] + rest
      case None => rest
  }

  /** Whether some contribution is for name `n`. */
  predicate Nombra(aps: seq<Total>, n: string)
  {
    exists i :: 0 <= i < |aps| && aps[i].nombre == n
  }

  /** The sum of the contributions for name `n`. */
  function SumaNombre(aps: seq<Total>, n: string): int
  {
    if aps == [] then 0
    else SumaNombre(aps[..|aps| - 1], n) + (if aps[|aps| - 1].nombre == n then aps[|aps| - 1].valor else 0)
  }

  /** No two rows share a name. */
  predicate NombresDistintos(gs: seq<Total>)
  {
    forall i, j :: 0 <= i < j < |gs| ==> gs[i].nombre != gs[j].nombre
  }

  /** The group total of name `n`, 0 when there is no such group. */
  function ValorDe(gs: seq<Total>, n: string): int
  {
    if gs == [] then 0 else if gs[0].nombre == n then gs[0].valor else ValorDe(gs[1..], n)
  }

  /** Adds one contribution to its group, opening a group at the end when the
      name is new. */
  function Sumar(gs: seq<Total>, a: Total): (r: seq<Total>)
    ensures |r| == |gs| || |r| == |gs| + 1
  {
    if gs == [] then [a]
    else if gs[0].nombre == a.nombre then [gs[0].(valor := gs[0].valor + a.valor)] + gs[1..]
    else [gs[0]] + Sumar(gs[1..], a)
  }

  /** `GROUP BY p.nombre` with SUM: one row per name, in order of first
      appearance. */
  function Agrupar(aps: seq<Total>): seq<Total>
  {
    if aps == [] then [] else Sumar(Agrupar(aps[..|aps| - 1]), aps[|aps| - 1])
  }

  lemma {:induction false} SumarValor(gs: seq<Total>, a: Total, n: string)
    ensures ValorDe(Sumar(gs, a), n) == ValorDe(gs, n) + (if n == a.nombre then a.valor else 0)
  {
    if gs != [] && gs[0].nombre != a.nombre {
      SumarValor(gs[1..], a, n);
    }
  }

  lemma {:induction false} SumarNombres(gs: seq<Total>, a: Total, n: string)
    ensures Nombra(Sumar(gs, a), n) <==> Nombra(gs, n) || n == a.nombre
  {
    if gs == [] {
      assert Sumar(gs, a)[0].nombre == a.nombre;
    } else {
      assert gs == [gs[0]] + gs[1..];
      NombraCons(gs[0], gs[1..], n);
      if gs[0].nombre == a.nombre {
        NombraCons(gs[0].(valor := gs[0].valor + a.valor), gs[1..], n);
      } else {
        SumarNombres(gs[1..], a, n);
        NombraCons(gs[0], Sumar(gs[1..], a), n);
      }
    }
  }

  lemma NombraCons(h: Total, rest: seq<Total>, n: string)
    ensures Nombra([h] + rest, n) <==> h.nombre == n || Nombra(rest, n)
  {
    var r := [h] + rest;
    if h.nombre == n {
      assert r[0].nombre == n;
    }
    if Nombra(rest, n) {
      var i :| 0 <= i < |rest| && rest[i].nombre == n;
      assert r[i + 1].nombre == n;
    }
    if Nombra(r, n) {
      var i :| 0 <= i < |r| && r[i].nombre == n;
      if i == 0 { assert r[0] == h; } else { assert rest[i - 1].nombre == n; }
    }
  }

  lemma {:induction false} SumarDistintos(gs: seq<Total>, a: Total)
    requires NombresDistintos(gs)
    ensures NombresDistintos(Sumar(gs, a))
  {
    var r := Sumar(gs, a);
    if gs == [] {
    } else if gs[0].nombre == a.nombre {
      forall i, j | 0 <= i < j < |r| ensures r[i].nombre != r[j].nombre {
        assert r[i].nombre == gs[i].nombre && r[j].nombre == gs[j].nombre;
      }
    } else {
      var rest := Sumar(gs[1..], a);
      assert NombresDistintos(gs[1..]) by {
        forall i, j | 0 <= i < j < |gs[1..]| ensures gs[1..][i].nombre != gs[1..][j].nombre {
          assert gs[1..][i] == gs[i + 1] && gs[1..][j] == gs[j + 1];
        }
      }
      SumarDistintos(gs[1..], a);
      forall i, j | 0 <= i < j < |r| ensures r[i].nombre != r[j].nombre {
        if i == 0 {
          assert rest[j - 1] == r[j];
          assert Nombra(rest, r[j].nombre);
          SumarNombres(gs[1..], a, r[j].nombre);
          if Nombra(gs[1..], r[j].nombre) {
            var k :| 0 <= k < |gs[1..]| && gs[1..][k].nombre == r[j].nombre;
            assert gs[k + 1].nombre == r[j].nombre;
          }
        } else {
          assert r[i] == rest[i - 1] && r[j] == rest[j - 1];
        }
      }
    }
  }

  /** With distinct names, each row holds its group's total. */
  lemma {:induction false} ValorDeFila(gs: seq<Total>, i: int)
    requires NombresDistintos(gs) && 0 <= i < |gs|
    ensures ValorDe(gs, gs[i].nombre) == gs[i].valor
  {
    if i > 0 {
      assert gs[0].nombre != gs[i].nombre;
      assert gs[1..][i - 1] == gs[i];
      assert NombresDistintos(gs[1..]) by {
        forall a, b | 0 <= a < b < |gs[1..]| ensures gs[1..][a].nombre != gs[1..][b].nombre {
          assert gs[1..][a] == gs[a + 1] && gs[1..][b] == gs[b + 1];
        }
      }
      ValorDeFila(gs[1..], i - 1);
    }
  }

  /** GROUP BY gives one row per name that has a contribution, no two rows
      for one name, and each name's group holds the sum of its
      contributions: products that share a name are merged. */
  lemma {:induction false} AgruparCorrecto(aps: seq<Total>)
    ensures NombresDistintos(Agrupar(aps))
    ensures forall n :: ValorDe(Agrupar(aps), n) == SumaNombre(aps, n)
    ensures forall n :: Nombra(Agrupar(aps), n) <==> Nombra(aps, n)
  {
    if aps != [] {
      var k := |aps| - 1;
      var pre := aps[..k];
      AgruparCorrecto(pre);
      SumarDistintos(Agrupar(pre), aps[k]);
      forall n ensures ValorDe(Agrupar(aps), n) == SumaNombre(aps, n) {
        SumarValor(Agrupar(pre), aps[k], n);
      }
      forall n ensures Nombra(Agrupar(aps), n) <==> Nombra(aps, n) {
        SumarNombres(Agrupar(pre), aps[k], n);
        if Nombra(pre, n) {
          var i :| 0 <= i < |pre| && pre[i].nombre == n;
          assert aps[i].nombre == n;
        }
        if Nombra(aps, n) && n != aps[k].nombre {
          var i :| 0 <= i < |aps| && aps[i].nombre == n;
          assert pre[i].nombre == n;
        }
      }
    } else {
      forall n ensures !Nombra(Agrupar(aps), n) && !Nombra(aps, n) {
      }
    }
  }

  /** Sorting keeps distinct names distinct. */
  lemma {:induction false} InsertDistintos(x: Total, s: seq<Total>)
    requires NombresDistintos(s)
    requires forall i :: 0 <= i < |s| ==> s[i].nombre != x.nombre
    ensures NombresDistintos(Insert(x, s, Valor))
  {
    if s != [] && Valor(x) < Valor(s[0]) {
      var rest := Insert(x, s[1..], Valor);
      assert NombresDistintos(s[1..]) by {
        forall a, b | 0 <= a < b < |s[1..]| ensures s[1..][a].nombre != s[1..][b].nombre {
          assert s[1..][a] == s[a + 1] && s[1..][b] == s[b + 1];
        }
      }
      assert forall i :: 0 <= i < |s[1..]| ==> s[1..][i].nombre != x.nombre by {
        forall i | 0 <= i < |s[1..]| ensures s[1..][i].nombre != x.nombre {
          assert s[1..][i] == s[i + 1];
        }
      }
      InsertDistintos(x, s[1..]);
      CabezaAjena(x, s, rest);
      ConsDistintos(s[0], rest);
    } else if s != [] {
      ConsDistintos(x, s);
    }
  }

  /** The head of `s` is named by nothing inserted behind it. */
  lemma CabezaAjena(x: Total, s: seq<Total>, rest: seq<Total>)
    requires s != [] && NombresDistintos(s) && s[0].nombre != x.nombre
    requires multiset(rest) == multiset(s[1..]) + multiset{x}
    ensures forall y :: y in rest ==> y.nombre != s[0].nombre
  {
    forall y | y in rest ensures y.nombre != s[0].nombre {
      assert y in multiset(rest);
      if y != x {
        assert y in multiset(s[1..]);
        var k :| 0 <= k < |s[1..]| && s[1..][k] == y;
        assert s[k + 1] == y;
      }
    }
  }

  lemma ConsDistintos(h: Total, rest: seq<Total>)
    requires NombresDistintos(rest)
    requires forall y :: y in rest ==> y.nombre != h.nombre
    ensures NombresDistintos([h] + rest)
  {
    var r := [h] + rest;
    forall i, j | 0 <= i < j < |r| ensures r[i].nombre != r[j].nombre {
      assert r[j] == rest[j - 1];
      if i > 0 {
        assert r[i] == rest[i - 1];
      }
    }
  }

  lemma {:induction false} SortDescDistintos(s: seq<Total>)
    requires NombresDistintos(s)
    ensures NombresDistintos(SortDesc(s, Valor))
  {
    if s != [] {
      assert NombresDistintos(s[1..]) by {
        forall a, b | 0 <= a < b < |s[1..]| ensures s[1..][a].nombre != s[1..][b].nombre {
          assert s[1..][a] == s[a + 1] && s[1..][b] == s[b + 1];
        }
      }
      SortDescDistintos(s[1..]);
      var sorted := SortDesc(s[1..], Valor);
      forall i | 0 <= i < |sorted| ensures sorted[i].nombre != s[0].nombre {
        assert sorted[i] in multiset(s[1..]);
        var k :| 0 <= k < |s[1..]| && s[1..][k] == sorted[i];
        assert s[k + 1] == sorted[i];
      }
      InsertDistintos(s[0], sorted);
    }
  }

  /** A ranking: grouped, sorted by total descending, cut to `k` rows. */
  function Ranking(aps: seq<Total>, k: nat): seq<Total>
  {
    Take(SortDesc(Agrupar(aps), Valor), k)
  }

  /** Each row of a ranking is a name with contributions and holds its total. */
  lemma RankingFila(aps: seq<Total>, k: nat, i: int)
    requires 0 <= i < |Ranking(aps, k)|
    ensures Nombra(aps, Ranking(aps, k)[i].nombre)
    ensures Ranking(aps, k)[i].valor == SumaNombre(aps, Ranking(aps, k)[i].nombre)
  {
    var gs := Agrupar(aps);
    var sorted := SortDesc(gs, Valor);
    var r := Ranking(aps, k);
    AgruparCorrecto(aps);
    assert r[i] == sorted[i];
    assert sorted[i] in multiset(gs);
    var j :| 0 <= j < |gs| && gs[j] == sorted[i];
    ValorDeFila(gs, j);
    assert Nombra(gs, gs[j].nombre);
  }

  /** A name with contributions that a ranking leaves out totals no more than
      any listed row, and is left out only when `k` rows are listed. */
  lemma RankingOmitido(aps: seq<Total>, k: nat, n: string)
    requires Nombra(aps, n) && !Nombra(Ranking(aps, k), n)
    ensures |Ranking(aps, k)| == k
    ensures forall i :: 0 <= i < |Ranking(aps, k)| ==> Ranking(aps, k)[i].valor >= SumaNombre(aps, n)
  {
    var gs := Agrupar(aps);
    var sorted := SortDesc(gs, Valor);
    var r := Ranking(aps, k);
    AgruparCorrecto(aps);
    var j :| 0 <= j < |gs| && gs[j].nombre == n;
    ValorDeFila(gs, j);
    assert gs[j] in multiset(sorted);
    var j' :| 0 <= j' < |sorted| && sorted[j'] == gs[j];
    assert forall i :: 0 <= i < |r| ==> r[i] == sorted[i];
    TakeKeepsLargest(sorted, Valor, k, j');
  }

  /** A ranking is cut to at most `k` rows, never increases, lists each name
      at most once, each with the sum of its contributions, and keeps the
      largest totals. */
  lemma RankingCorrecto(aps: seq<Total>, k: nat)
    ensures |Ranking(aps, k)| <= k
    ensures SortedDesc(Ranking(aps, k), Valor)
    ensures NombresDistintos(Ranking(aps, k))
    ensures forall i :: 0 <= i < |Ranking(aps, k)| ==>
      Nombra(aps, Ranking(aps, k)[i].nombre) && Ranking(aps, k)[i].valor == SumaNombre(aps, Ranking(aps, k)[i].nombre)
    ensures forall n :: Nombra(aps, n) && !Nombra(Ranking(aps, k), n) ==>
      |Ranking(aps, k)| == k && forall i :: 0 <= i < |Ranking(aps, k)| ==> Ranking(aps, k)[i].valor >= SumaNombre(aps, n)
  {
    var gs := Agrupar(aps);
    var sorted := SortDesc(gs, Valor);
    var r := Ranking(aps, k);
    AgruparCorrecto(aps);
    SortDescDistintos(gs);
    forall i, j | 0 <= i < j < |r| ensures Valor(r[i]) >= Valor(r[j]) && r[i].nombre != r[j].nombre {
      assert r[i] == sorted[i] && r[j] == sorted[j];
    }
    forall i | 0 <= i < |r|
      ensures Nombra(aps, r[i].nombre) && r[i].valor == SumaNombre(aps, r[i].nombre)
    {
      RankingFila(aps, k, i);
    }
    forall n | Nombra(aps, n) && !Nombra(r, n)
      ensures |r| == k && forall i :: 0 <= i < |r| ==> r[i].valor >= SumaNombre(aps, n)
    {
      RankingOmitido(aps, k, n);
    }
  }

  /** Without a limit every name with contributions gets its row, holding
      the sum of that name's contributions. */
  lemma RankingCompleto(aps: seq<Total>)
    ensures forall n :: Nombra(SortDesc(Agrupar(aps), Valor), n) <==> Nombra(aps, n)
    ensures NombresDistintos(SortDesc(Agrupar(aps), Valor))
    ensures SortedDesc(SortDesc(Agrupar(aps), Valor), Valor)
    ensures forall i :: 0 <= i < |SortDesc(Agrupar(aps), Valor)| ==>
      SortDesc(Agrupar(aps), Valor)[i].valor == SumaNombre(aps, SortDesc(Agrupar(aps), Valor)[i].nombre)
  {
    var gs := Agrupar(aps);
    var sorted := SortDesc(gs, Valor);
    AgruparCorrecto(aps);
    SortDescDistintos(gs);
    forall i | 0 <= i < |sorted| ensures sorted[i].valor == SumaNombre(aps, sorted[i].nombre) {
      assert sorted[i] in multiset(gs);
      var j :| 0 <= j < |gs| && gs[j] == sorted[i];
      ValorDeFila(gs, j);
    }
    forall n ensures Nombra(sorted, n) <==> Nombra(gs, n) {
      if Nombra(sorted, n) {
        var i :| 0 <= i < |sorted| && sorted[i].nombre == n;
        assert sorted[i] in multiset(gs);
        var j :| 0 <= j < |gs| && gs[j] == sorted[i];
      }
      if Nombra(gs, n) {
        var j :| 0 <= j < |gs| && gs[j].nombre == n;
        assert gs[j] in multiset(sorted);
        var i :| 0 <= i < |sorted| && sorted[i] == gs[j];
      }
    }
  }

  /** The contributions of the lines in the window. */
  function AportesEnRango(t: Snapshot, desde: int, hasta: int, m: Medida): seq<Total>
  {
    Aportes(t.productos, t.precios, LineasEnRango(t, desde, hasta), m)
  }

  /** `fetch_top_quantity`: units per product name, top 5. */
  function FetchTopQuantity(t: Snapshot, desde: int, hasta: int): (r: seq<Total>)
    ensures |r| <= 5
    ensures SortedDesc(r, Valor)
    ensures NombresDistintos(r)
  {
    RankingCorrecto(AportesEnRango(t, desde, hasta, PorCantidad), 5);
    Ranking(AportesEnRango(t, desde, hasta, PorCantidad), 5)
  }

  /** `fetch_top_revenue`: quantity × net price per product name, top 5. */
  function FetchTopRevenue(t: Snapshot, desde: int, hasta: int): (r: seq<Total>)
    ensures |r| <= 5
    ensures SortedDesc(r, Valor)
    ensures NombresDistintos(r)
  {
    RankingCorrecto(AportesEnRango(t, desde, hasta, PorIngresos), 5);
    Ranking(AportesEnRango(t, desde, hasta, PorIngresos), 5)
  }

  /** `fetch_top_profit`: quantity × net profit per product name, all names. */
  function FetchTopProfit(t: Snapshot, desde: int, hasta: int): seq<Total>
  {
    SortDesc(Agrupar(AportesEnRango(t, desde, hasta, PorUtilidad)), Valor)
  }

  /** `SUM(vp.cantidad * pr.utilidad_neta)` over the lines `ls` for products
      named `n`, read straight off the lines and the two joined tables. */
  function UtilidadNombre(productos: map<int, Producto>, precios: map<int, Precio>, ls: seq<Linea>, n: string): int
  {
    if ls == [] then 0
    else
      var id := ls[0].idProducto;
      (if id in productos && id in precios && productos[id].nombre == n then ls[0].cantidad * precios[id].utilidad else 0)
        + UtilidadNombre(productos, precios, ls[1..], n)
  }

  lemma {:induction false} SumaNombreConcat(a: seq<Total>, b: seq<Total>, n: string)
    ensures SumaNombre(a + b, n) == SumaNombre(a, n) + SumaNombre(b, n)
    decreases |b|
  {
    if b == [] {
      assert a + b == a;
    } else {
      var ab := a + b;
      assert ab[..|ab| - 1] == a + b[..|b| - 1];
      assert ab[|ab| - 1] == b[|b| - 1];
      SumaNombreConcat(a, b[..|b| - 1], n);
    }
  }

  /** The profit contributions of a name add up to its profit over the lines. */
  lemma {:induction false} AportesUtilidad(productos: map<int, Producto>, precios: map<int, Precio>, ls: seq<Linea>, n: string)
    ensures SumaNombre(Aportes(productos, precios, ls, PorUtilidad), n) == UtilidadNombre(productos, precios, ls, n)
  {
    if ls != [] {
      var rest := Aportes(productos, precios, ls[1..], PorUtilidad);
      AportesUtilidad(productos, precios, ls[1..], n);
      match Aporte(productos, precios, ls[0], PorUtilidad)
      case Some(a) =>
        SumaNombreConcat([a], rest, n);
        assert [a][..0] == [];
      case None =>
    }
  }

  /** `fetch_top_profit` gives every name with a priced line in the window
      exactly one row, holding the quantity × net profit over that name's
      lines, non-increasing. */
  lemma FetchTopProfitCorrecto(t: Snapshot, desde: int, hasta: int)
    ensures var r := FetchTopProfit(t, desde, hasta);
      && SortedDesc(r, Valor)
      && NombresDistintos(r)
      && (forall n :: Nombra(r, n) <==> Nombra(AportesEnRango(t, desde, hasta, PorUtilidad), n))
      && forall i :: 0 <= i < |r| ==>
        r[i].valor == UtilidadNombre(t.productos, t.precios, LineasEnRango(t, desde, hasta), r[i].nombre)
  {
    var aps := AportesEnRango(t, desde, hasta, PorUtilidad);
    var r := FetchTopProfit(t, desde, hasta);
    RankingCompleto(aps);
    forall i | 0 <= i < |r|
      ensures r[i].valor == UtilidadNombre(t.productos, t.precios, LineasEnRango(t, desde, hasta), r[i].nombre)
    {
      AportesUtilidad(t.productos, t.precios, LineasEnRango(t, desde, hasta), r[i].nombre);
    }
  }

  /** Quantity contributions never read the price rows. */
  lemma {:induction false} AportesCantidadSinPrecios(productos: map<int, Producto>, p1: map<int, Precio>, p2: map<int, Precio>, ls: seq<Linea>)
    ensures Aportes(productos, p1, ls, PorCantidad) == Aportes(productos, p2, ls, PorCantidad)
  {
    if ls != [] {
      AportesCantidadSinPrecios(productos, p1, p2, ls[1..]);
    }
  }

  /** The quantity ranking does not depend on prices at all: products without
      a price row are ranked like any other. */
  lemma TopQuantityIgnoraPrecios(t: Snapshot, precios: map<int, Precio>, desde: int, hasta: int)
    ensures FetchTopQuantity(t.(precios := precios), desde, hasta) == FetchTopQuantity(t, desde, hasta)
  {
    AportesCantidadSinPrecios(t.productos, precios, t.precios, LineasEnRango(t, desde, hasta));
  }

  /** Every revenue or profit contribution comes from a line whose product
      exists and has a price row. */
  lemma {:induction false} AportesConPrecio(productos: map<int, Producto>, precios: map<int, Precio>, ls: seq<Linea>, m: Medida, n: string)
    requires m != PorCantidad
    requires Nombra(Aportes(productos, precios, ls, m), n)
    ensures exists i :: (0 <= i < |ls| && ls[i].idProducto in productos && ls[i].idProducto in precios
      && productos[ls[i].idProducto].nombre == n)
  {
    var aps := Aportes(productos, precios, ls, m);
    var rest := Aportes(productos, precios, ls[1..], m);
    var i :| 0 <= i < |aps| && aps[i].nombre == n;
    match Aporte(productos, precios, ls[0], m)
    case Some(a) =>
      if i == 0 {
        assert ls[0].idProducto in productos && ls[0].idProducto in precios;
      } else {
        assert rest[i - 1].nombre == n;
        AportesConPrecio(productos, precios, ls[1..], m, n);
        var j :| 0 <= j < |ls[1..]| && ls[1..][j].idProducto in productos && ls[1..][j].idProducto in precios
          && productos[ls[1..][j].idProducto].nombre == n;
        assert ls[j + 1] == ls[1..][j];
      }
    case None =>
      AportesConPrecio(productos, precios, ls[1..], m, n);
      var j :| 0 <= j < |ls[1..]| && ls[1..][j].idProducto in productos && ls[1..][j].idProducto in precios
        && productos[ls[1..][j].idProducto].nombre == n;
      assert ls[j + 1] == ls[1..][j];
  }

  /** A name listed by the revenue ranking has a priced line in the window. */
  lemma TopRevenueSoloConPrecio(t: Snapshot, desde: int, hasta: int, i: int)
    requires 0 <= i < |FetchTopRevenue(t, desde, hasta)|
    ensures exists j :: (0 <= j < |LineasEnRango(t, desde, hasta)| &&
      var l := LineasEnRango(t, desde, hasta)[j];
      l.idProducto in t.productos && l.idProducto in t.precios &&
      t.productos[l.idProducto].nombre == FetchTopRevenue(t, desde, hasta)[i].nombre)
  {
    RankingFila(AportesEnRango(t, desde, hasta, PorIngresos), 5, i);
    AportesConPrecio(t.productos, t.precios, LineasEnRango(t, desde, hasta), PorIngresos, FetchTopRevenue(t, desde, hasta)[i].nombre);
  }

  // ---------------------------------------------------------------- the window, again

  /** A sale dated outside the window changes no report of that window. */
  lemma ReportesInsertarFuera(t: Snapshot, v: Venta, items: seq<VentasRepo.ItemVenta>, desde: int, hasta: int)
    requires WellFormed(t)
    requires !(desde <= v.fecha <= hasta)
    ensures var t' := VentasRepo.InsertarVentaSpec(t, v, items).0;
      && FetchSummary(t', desde, hasta) == FetchSummary(t, desde, hasta)
      && FetchTopQuantity(t', desde, hasta) == FetchTopQuantity(t, desde, hasta)
      && FetchTopRevenue(t', desde, hasta) == FetchTopRevenue(t, desde, hasta)
      && FetchTopProfit(t', desde, hasta) == FetchTopProfit(t, desde, hasta)
  {
    var (t', id) := VentasRepo.InsertarVentaSpec(t, v, items);
    VentanaTrasInsertar(t, v, items, desde, hasta);
    assert LineasEnRango(t, desde, hasta) + [] == LineasEnRango(t, desde, hasta);
    assert VentasEnRango(t', desde, hasta) == VentasEnRango(t, desde, hasta);
    ReportesMismaVentana(t, t', desde, hasta);
  }

  /** The reports read only the window's lines and headers and the two
      joined tables: snapshots that agree on those give the same reports. */
  lemma ReportesMismaVentana(t: Snapshot, t': Snapshot, desde: int, hasta: int)
    requires LineasEnRango(t', desde, hasta) == LineasEnRango(t, desde, hasta)
    requires VentasEnRango(t', desde, hasta) == VentasEnRango(t, desde, hasta)
    requires t'.productos == t.productos && t'.precios == t.precios
    ensures FetchSummary(t', desde, hasta) == FetchSummary(t, desde, hasta)
    ensures FetchTopQuantity(t', desde, hasta) == FetchTopQuantity(t, desde, hasta)
    ensures FetchTopRevenue(t', desde, hasta) == FetchTopRevenue(t, desde, hasta)
    ensures FetchTopProfit(t', desde, hasta) == FetchTopProfit(t, desde, hasta)
  {
    forall m ensures AportesEnRango(t', desde, hasta, m) == AportesEnRango(t, desde, hasta, m) {
    }
  }

  /** After inserting a sale, the window holds the old lines in it followed by
      the new sale's lines if the sale's date is in it. */
  lemma VentanaTrasInsertar(t: Snapshot, v: Venta, items: seq<VentasRepo.ItemVenta>, desde: int, hasta: int)
    requires WellFormed(t)
    ensures var (t', id) := VentasRepo.InsertarVentaSpec(t, v, items);
      LineasEnRango(t', desde, hasta) ==
        LineasEnRango(t, desde, hasta) + (if desde <= v.fecha <= hasta then VentasRepo.LineasDe(id, items) else [])
  {
    var (t', id) := VentasRepo.InsertarVentaSpec(t, v, items);
    EnRangoDeConcat(t'.ventas, t.lineas, VentasRepo.LineasDe(id, items), desde, hasta);
    VentanaViejas(t, v, items, desde, hasta);
    VentanaNuevas(t, v, items, desde, hasta);
  }

  /** The old lines keep their headers, so the window keeps the same ones. */
  lemma VentanaViejas(t: Snapshot, v: Venta, items: seq<VentasRepo.ItemVenta>, desde: int, hasta: int)
    requires WellFormed(t)
    ensures var t' := VentasRepo.InsertarVentaSpec(t, v, items).0;
      EnRangoDe(t'.ventas, t.lineas, desde, hasta) == LineasEnRango(t, desde, hasta)
  {
    var t' := VentasRepo.InsertarVentaSpec(t, v, items).0;
    EnRangoDeMismasVentas(t'.ventas, t.ventas, t.lineas, desde, hasta);
  }

  /** The new sale's lines are all in the window or all out of it. */
  lemma VentanaNuevas(t: Snapshot, v: Venta, items: seq<VentasRepo.ItemVenta>, desde: int, hasta: int)
    requires WellFormed(t)
    ensures var (t', id) := VentasRepo.InsertarVentaSpec(t, v, items);
      EnRangoDe(t'.ventas, VentasRepo.LineasDe(id, items), desde, hasta)
        == if desde <= v.fecha <= hasta then VentasRepo.LineasDe(id, items) else []
  {
    var (t', id) := VentasRepo.InsertarVentaSpec(t, v, items);
    var nuevas := VentasRepo.LineasDe(id, items);
    if desde <= v.fecha <= hasta {
      EnRangoTodas(t'.ventas, nuevas, desde, hasta);
    } else {
      EnRangoDeFuera(t'.ventas, nuevas, desde, hasta);
    }
  }

  lemma {:induction false} EnRangoTodas(ventas: map<int, Venta>, ls: seq<Linea>, desde: int, hasta: int)
    requires forall i :: 0 <= i < |ls| ==> EnVentana(ventas, desde, hasta, ls[i])
    ensures EnRangoDe(ventas, ls, desde, hasta) == ls
  {
    if ls != [] {
      EnRangoTodas(ventas, ls[1..], desde, hasta);
      assert ls == [ls[0]] + ls[1..];
    }
  }

  /** A sale dated inside the window is counted, even with no lines, and adds
      exactly its priced lines to the net sales. */
  lemma ResumenInsertarDentro(t: Snapshot, v: Venta, items: seq<VentasRepo.ItemVenta>, desde: int, hasta: int)
    requires WellFormed(t)
    requires desde <= v.fecha <= hasta
    ensures var (t', id) := VentasRepo.InsertarVentaSpec(t, v, items);
      && FetchSummary(t', desde, hasta).cantidadVentas == FetchSummary(t, desde, hasta).cantidadVentas + 1
      && FetchSummary(t', desde, hasta).ventasNetas
         == FetchSummary(t, desde, hasta).ventasNetas + Neto(t.precios, VentasRepo.LineasDe(id, items)) as real
  {
    var (t', id) := VentasRepo.InsertarVentaSpec(t, v, items);
    VentanaTrasInsertar(t, v, items, desde, hasta);
    NetoConcat(t.precios, LineasEnRango(t, desde, hasta), VentasRepo.LineasDe(id, items));
    assert VentasEnRango(t', desde, hasta) == VentasEnRango(t, desde, hasta) + {id};
    assert id !in VentasEnRango(t, desde, hasta);
  }
}
