/** Report post-processing: values rounded to integers, and the comparison of
    a window with the window of the same length just before it. */
module ReportService {
  import opened Common
  import opened Numeric
  import opened Tables
  import opened ReportRepository

  // ---------------------------------------------------------------- summary

  /** The summary the service hands to the screen. */
  datatype Resumen = Resumen(ventasNetas: int, cantidadVentas: int, ticketPromedio: int)

  /** `int(round(...))` on the two amounts, `int(...)` on the count. */
  function RedondearResumen(raw: ResumenBruto): (r: Resumen)
    ensures -0.5 <= r.ventasNetas as real - raw.ventasNetas <= 0.5
    ensures -0.5 <= r.ticketPromedio as real - raw.ticketPromedio <= 0.5
    ensures r.ventasNetas as real - raw.ventasNetas == 0.5 || raw.ventasNetas - r.ventasNetas as real == 0.5
      ==> r.ventasNetas % 2 == 0
    ensures r.ticketPromedio as real - raw.ticketPromedio == 0.5 || raw.ticketPromedio - r.ticketPromedio as real == 0.5
      ==> r.ticketPromedio % 2 == 0
    ensures r.cantidadVentas == raw.cantidadVentas
  {
    Resumen(RoundHalfEven(raw.ventasNetas), raw.cantidadVentas, RoundHalfEven(raw.ticketPromedio))
  }

  /** `get_summary_report(desde, hasta)`. */
  function GetSummaryReport(t: Snapshot, desde: int, hasta: int): Resumen
  {
    RedondearResumen(FetchSummary(t, desde, hasta))
  }

  lemma RoundHalfEvenEntero(n: int)
    ensures RoundHalfEven(n as real) == n
  {
  }

  /** The summary's net sales are the exact integer sum, its count the number
      of headers in the window, and its ticket the rounded average. */
  lemma GetSummaryReportExacto(t: Snapshot, desde: int, hasta: int)
    ensures GetSummaryReport(t, desde, hasta).ventasNetas == Neto(t.precios, LineasEnRango(t, desde, hasta))
    ensures GetSummaryReport(t, desde, hasta).cantidadVentas == |VentasEnRango(t, desde, hasta)|
    ensures |VentasEnRango(t, desde, hasta)| == 0 ==> GetSummaryReport(t, desde, hasta).ticketPromedio == 0
  {
    RoundHalfEvenEntero(Neto(t.precios, LineasEnRango(t, desde, hasta)));
    RoundHalfEvenEntero(0);
  }

  /** 123.6 rounds to 124 and 61.3 to 61; the count passes through. */
  lemma RedondearResumenEjemplo()
    ensures RedondearResumen(ResumenBruto(123.6, 2, 61.3)) == Resumen(124, 2, 61)
  {
    assert (123.6).Floor == 123;
    assert (61.3).Floor == 61;
  }

  /** Python's `round` sends halves to the even neighbour. */
  lemma RoundHalfEvenEmpates()
    ensures RoundHalfEven(2.5) == 2 && RoundHalfEven(3.5) == 4 && RoundHalfEven(-0.5) == 0
  {
    assert (2.5).Floor == 2;
    assert (3.5).Floor == 3;
    assert (-0.5).Floor == -1;
  }

  // ---------------------------------------------------------------- top lists

  /** A ranking row as the database driver hands it over, its total a number. */
  datatype FilaBruta = FilaBruta(nombre: string, valor: real)

  function ComoFilas(gs: seq<Total>): (r: seq<FilaBruta>)
    ensures |r| == |gs|
    ensures forall i :: 0 <= i < |r| ==> r[i] == FilaBruta(gs[i].nombre, gs[i].valor as real)
  {
    if gs == [] then [] else [FilaBruta(gs[0].nombre, gs[0].valor as real)] + ComoFilas(gs[1..])
  }

  /** `int(round(total))` on every row: names and order kept. */
  function RedondearFilas(rows: seq<FilaBruta>): (r: seq<Total>)
    ensures |r| == |rows|
    ensures forall i :: 0 <= i < |r| ==>
      r[i].nombre == rows[i].nombre && -0.5 <= r[i].valor as real - rows[i].valor <= 0.5
    ensures forall i :: 0 <= i < |r| ==>
      (r[i].valor as real - rows[i].valor == 0.5 || rows[i].valor - r[i].valor as real == 0.5) ==> r[i].valor % 2 == 0
  {
    if rows == [] then []
    else [Total(rows[0].nombre, RoundHalfEven(rows[0].valor))] + RedondearFilas(rows[1..])
  }

  /** `int(total)` on every row: names and order kept, totals truncated. */
  function TruncarFilas(rows: seq<FilaBruta>): (r: seq<Total>)
    ensures |r| == |rows|
    ensures forall i :: 0 <= i < |r| ==>
      r[i].nombre == rows[i].nombre && (rows[i].valor >= 0.0 ==> r[i].valor as real <= rows[i].valor < r[i].valor as real + 1.0)
  {
    if rows == [] then []
    else [Total(rows[0].nombre, TruncateToInt(rows[0].valor))] + TruncarFilas(rows[1..])
  }

  function GetTopQuantityReport(t: Snapshot, desde: int, hasta: int): (r: seq<Total>)
    ensures |r| == |FetchTopQuantity(t, desde, hasta)|
    ensures forall i :: 0 <= i < |r| ==> r[i].nombre == FetchTopQuantity(t, desde, hasta)[i].nombre
  {
    TruncarFilas(ComoFilas(FetchTopQuantity(t, desde, hasta)))
  }

  function GetTopRevenueReport(t: Snapshot, desde: int, hasta: int): (r: seq<Total>)
    ensures |r| == |FetchTopRevenue(t, desde, hasta)|
    ensures forall i :: 0 <= i < |r| ==> r[i].nombre == FetchTopRevenue(t, desde, hasta)[i].nombre
  {
    RedondearFilas(ComoFilas(FetchTopRevenue(t, desde, hasta)))
  }

  function GetTopProfitReport(t: Snapshot, desde: int, hasta: int): (r: seq<Total>)
    ensures |r| == |FetchTopProfit(t, desde, hasta)|
    ensures forall i :: 0 <= i < |r| ==> r[i].nombre == FetchTopProfit(t, desde, hasta)[i].nombre
  {
    RedondearFilas(ComoFilas(FetchTopProfit(t, desde, hasta)))
  }

  lemma {:induction false} RedondearEnteros(gs: seq<Total>)
    ensures RedondearFilas(ComoFilas(gs)) == gs
  {
    if gs != [] {
      RoundHalfEvenEntero(gs[0].valor);
      assert ComoFilas(gs)[1..] == ComoFilas(gs[1..]);
      RedondearEnteros(gs[1..]);
    }
  }

  lemma {:induction false} TruncarEnteros(gs: seq<Total>)
    ensures TruncarFilas(ComoFilas(gs)) == gs
  {
    if gs != [] {
      assert TruncateToInt(gs[0].valor as real) == gs[0].valor;
      assert ComoFilas(gs)[1..] == ComoFilas(gs[1..]);
      TruncarEnteros(gs[1..]);
    }
  }

  /** The top reports are the repository's rankings row for row: with integer
      totals the rounding changes nothing. */
  lemma TopReportsSonRankings(t: Snapshot, desde: int, hasta: int)
    ensures GetTopQuantityReport(t, desde, hasta) == FetchTopQuantity(t, desde, hasta)
    ensures GetTopRevenueReport(t, desde, hasta) == FetchTopRevenue(t, desde, hasta)
    ensures GetTopProfitReport(t, desde, hasta) == FetchTopProfit(t, desde, hasta)
  {
    TruncarEnteros(FetchTopQuantity(t, desde, hasta));
    RedondearEnteros(FetchTopRevenue(t, desde, hasta));
    RedondearEnteros(FetchTopProfit(t, desde, hasta));
  }

  /** 5.0 becomes 5, 250.7 becomes 251 and 80.2 becomes 80. */
  lemma TopRedondeoEjemplo()
    ensures TruncarFilas([FilaBruta("A", 5.0)]) == [Total("A", 5)]
    ensures RedondearFilas([FilaBruta("A", 250.7)]) == [Total("A", 251)]
    ensures RedondearFilas([FilaBruta("A", 80.2)]) == [Total("A", 80)]
  {
    assert (5.0).Floor == 5;
    assert (250.7).Floor == 250;
    assert (80.2).Floor == 80;
    assert [FilaBruta("A", 5.0)][1..] == [];
    assert [FilaBruta("A", 250.7)][1..] == [];
    assert [FilaBruta("A", 80.2)][1..] == [];
  }

  // ---------------------------------------------------------------- comparison

  /** The window before `desde`: it ends the day before and, for days >= 1,
      spans exactly `days` days. */
  function VentanaAnterior(desde: int, days: int): (r: (int, int))
    ensures r.1 == desde - 1
    ensures r.1 - r.0 + 1 == days
  {
    var prevEnd := desde - 1;
    (prevEnd - (days - 1), prevEnd)
  }

  /** The relative change from `prev` to `curr`; with `prev` zero the change
      is 1.0 if there is anything now and 0.0 otherwise. */
  function Variacion(prev: int, curr: int): (r: real)
    ensures prev != 0 ==> curr as real == prev as real * (1.0 + r)
    ensures prev == 0 ==> (r == 1.0 <==> curr != 0) && (r == 0.0 <==> curr == 0)
  {
    if prev != 0 then (curr - prev) as real / prev as real
    else if curr != 0 then 1.0 else 0.0
  }

  /** The summary as the dictionary the service returns. */
  function ComoMapa(r: Resumen): (m: map<string, int>)
    ensures m.Keys == {"ventas_netas", "cantidad_ventas", "ticket_promedio"}
    ensures m["ventas_netas"] == r.ventasNetas && m["cantidad_ventas"] == r.cantidadVentas
      && m["ticket_promedio"] == r.ticketPromedio
  {
    map["ventas_netas" := r.ventasNetas, "cantidad_ventas" := r.cantidadVentas, "ticket_promedio" := r.ticketPromedio]
  }

  /** The `variacion` dictionary: one entry per key of `actual`, a missing
      key of `anterior` reading 0. */
  function Variaciones(actual: map<string, int>, anterior: map<string, int>): map<string, real>
  {
    map k | k in actual :: Variacion(GetOr(anterior, k, 0), actual[k])
  }

  /** The loop of `get_comparison_report` over the keys of `actual`: one
      variation per key, a key missing from `anterior` reading 0. */
  method CalcularVariaciones(actual: map<string, int>, anterior: map<string, int>)
    returns (variacion: map<string, real>)
    ensures variacion.Keys == actual.Keys
    ensures forall k :: k in actual ==> variacion[k] == Variacion(GetOr(anterior, k, 0), actual[k])
  {
    variacion := map[];
    var pendientes := actual.Keys;
    while pendientes != {}
      invariant pendientes <= actual.Keys
      invariant variacion.Keys == actual.Keys - pendientes
      invariant forall k :: k in variacion ==> variacion[k] == Variacion(GetOr(anterior, k, 0), actual[k])
      decreases |pendientes|
    {
      // Pick shows `pendientes` has an element, so the `:|` below is satisfiable.
      ghost var w := Pick(pendientes);
      var key :| key in pendientes;
      var prev := GetOr(anterior, key, 0);
      var curr := GetOr(actual, key, 0);
      if prev != 0 {
        variacion := variacion[key := (curr - prev) as real / prev as real];
      } else {
        variacion := variacion[key := if curr != 0 then 1.0 else 0.0];
      }
      pendientes := pendientes - {key};
    }
  }

  /** `get_comparison_report(desde, hasta, days)`: both summaries, already
      rounded, and their variations. */
  method GetComparisonReport(t: Snapshot, desde: int, hasta: int, days: int)
    returns (actual: map<string, int>, anterior: map<string, int>, variacion: map<string, real>)
    ensures actual == ComoMapa(GetSummaryReport(t, desde, hasta))
    ensures anterior == ComoMapa(GetSummaryReport(t, VentanaAnterior(desde, days).0, VentanaAnterior(desde, days).1))
    ensures variacion == Variaciones(actual, anterior)
  {
    var prev := VentanaAnterior(desde, days);
    actual := ComoMapa(GetSummaryReport(t, desde, hasta));
    anterior := ComoMapa(GetSummaryReport(t, prev.0, prev.1));
    variacion := CalcularVariaciones(actual, anterior);
  }

  /** With a non-zero previous window every variation is (curr - prev) / prev. */
  lemma ComparacionNoCero()
    ensures var actual := ComoMapa(Resumen(200, 4, 50));
      var anterior := ComoMapa(Resumen(100, 2, 25));
      Variaciones(actual, anterior) == map["ventas_netas" := 1.0, "cantidad_ventas" := 1.0, "ticket_promedio" := 1.0]
  {
  }

  /** Against an all-zero previous window each key is judged on its own: 1.0
      where its current value is non-zero, 0.0 where it is zero. */
  lemma ComparacionCeros(curr: Resumen)
    ensures var v := Variaciones(ComoMapa(curr), ComoMapa(Resumen(0, 0, 0)));
      v.Keys == {"ventas_netas", "cantidad_ventas", "ticket_promedio"} &&
      (curr == Resumen(0, 0, 0) ==> forall k :: k in v ==> v[k] == 0.0) &&
      (curr.ventasNetas != 0 ==> v["ventas_netas"] == 1.0) &&
      (forall k :: k in v ==> (v[k] == 1.0 <==> ComoMapa(curr)[k] != 0) && (v[k] == 0.0 <==> ComoMapa(curr)[k] == 0))
  {
  }

  /** The previous window of the service's example: 15 days ending the day
      before the start. */
  lemma VentanaAnteriorEjemplo(desde: int)
    ensures VentanaAnterior(desde, 15) == (desde - 15, desde - 1)
  {
  }

  /** Variation compares the rounded summaries: a previous net of 0.4 rounds
      to 0, so any current net gives 1.0, not a ratio against 0.4. */
  lemma VariacionSobreRedondeados(curr: int)
    requires curr != 0
    ensures Variacion(RedondearResumen(ResumenBruto(0.4, 1, 0.4)).ventasNetas, curr) == 1.0
  {
    assert (0.4).Floor == 0;
  }
}
