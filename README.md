# MatexDB sales and inventory ledger in Dafny

This project models the ledger behind the MatexDB point-of-sale app. It has three stores:

- a **catalog**: products with a name and a stock, and an optional price row holding the net price and net profit;
- a **sales store**: sale headers and their lines;
- the **reports** computed over both.

The database is a class `Tables.Database`. Its fields are the tables `productos`, `precios`, `ventas` and `lineas`, plus two id counters. `Snap()` returns its value as a `Tables.Snapshot`.

Each repository call that changes the tables is a method. Its `modifies` clause names the database, and its postcondition sets the new snapshot to a specification function of the old one (`DescontarStockSpec`, `CrearSpec`, `InsertarVentaSpec`, `EliminarVentaSpec`, ...). What the source promises about each change is stated and proved as lemmas about those functions: fresh ids, exact stock changes, "nothing else changes", and that the invariant `Tables.WellFormed` is kept.

Two service operations are methods with loops, like the source:

- `preparar_items_venta` walks the form's entries and can stop early with `StockError`;
- `crear_venta` inserts the sale, then decrements stock one item at a time.

Each of these loops, and the restock loop of `eliminar_venta`, is proved equal to a recursive specification function. The loop that fills `variacion` in `get_comparison_report` is proved equal to a map comprehension. Reads and reports are pure functions over a snapshot.

Modules follow the source files:

| module | source file |
|---|---|
| `ProductoRepo` | `repository/producto_repo.py` |
| `VentasRepo` | `repository/ventas_repo.py` |
| `VentasService` | `services/ventas_service.py` |
| `ReportRepository` | `repository/report_repository.py` |
| `ReportService` | `services/report_service.py` |

The support modules are:

- `Common`: option, result, map lookup with a default;
- `Numeric`: half-up division, Python's `round`, `int()` on reals;
- `Ordering`: `ORDER BY id`, `ORDER BY ... DESC`, `LIMIT`;
- `Tables`: rows and the database.

Modelling choices:

- **Dates** are integer day numbers. `BETWEEN` is `desde <= fecha <= hasta`.
- **Net profit.** `utilidad_neta` comes from a schema that is not part of this model. `Database.utilidadDe` is a fixed function of the net price, applied when a price row is created or updated.
- **Order of equal keys.** SQL leaves it open. Sales with equal dates are listed by ascending id. Ranked products with equal totals keep the order in which their name first appears among the lines.
- **Line amounts** use the exact value `round_half_up(precio * 119 * cantidad / 100)`.
- **Reading the quantity text.** The quantity text is read as an optional sign followed by ASCII digits.

## Model

| member | source | states |
|---|---|---|
| `ProductoRepo.ObtenerProductos` | repository/producto_repo.py:30-34 | `obtener_productos`; its contract is carried by `ObtenerProductosOrdenados` and `CrearListaAlFinal` |
| `ProductoRepo.ObtenerProductosOrdenados` | repository/producto_repo.py:30-34 | one row (id, name, stock) per product, strictly ascending by id, and every product is listed |
| `ProductoRepo.ObtenerPrecio` | repository/producto_repo.py:37-41 | the product's net price, or 0 when it has no price row |
| `ProductoRepo.ObtenerStock` | repository/producto_repo.py:44-48 | the product's stock, or 0 for an unknown id |
| `ProductoRepo.DescontarStock` | repository/producto_repo.py:51-57 | the new state is `DescontarStockSpec` of the old one and stays well formed |
| `ProductoRepo.DescontarStockEfecto` | repository/producto_repo.py:51-57 | subtracts exactly `cantidad` with no lower bound, leaves every other product's stock alone, and changes nothing for an unknown id |
| `ProductoRepo.AjustarTodosCerrado` | repository/producto_repo.py:51-57 | a sequence of stock adjustments changes each product's stock by the sum of its own adjustments and leaves the key set alone |
| `ProductoRepo.Crear` | repository/producto_repo.py:61-72 | the new state is `CrearSpec` of the old one, with the profit derived from the price |
| `ProductoRepo.CrearBienFormado` | repository/producto_repo.py:61-72 | creating a product keeps the store well formed |
| `ProductoRepo.CrearEfecto` | repository/producto_repo.py:61-72 | the fresh id was unused, and it is the only key added; later lookups return the given price and stock; the new price row is (price, derived profit) and the only price key added; existing products and both columns of existing price rows are unchanged |
| `ProductoRepo.CrearListaAlFinal` | repository/producto_repo.py:30-34 | a newly created product appears at the end of `obtener_productos`, after every older row, which is unchanged |
| `ProductoRepo.Eliminar` | repository/producto_repo.py:75-79 | the new state is `EliminarSpec` of the old one |
| `ProductoRepo.EliminarEfecto` | repository/producto_repo.py:75-79 | the product is gone from every listing; its price and stock read 0; its price row is the only one removed; every other product and both columns of every other price row are untouched |
| `ProductoRepo.Actualizar` | repository/producto_repo.py:82-92 | the new state is `ActualizarSpec` of the old one |
| `ProductoRepo.ActualizarEfecto` | repository/producto_repo.py:82-92 | sets the stock of an existing product and the price where a price row exists; a product without a price row still has none; an existing price row becomes (price, derived profit); no key is added or removed; other products and both columns of other price rows are unchanged |
| `ProductoRepo.Filtrar` | repository/producto_repo.py:108-130 | keeps exactly the ids the WHERE clause selects, in ascending order |
| `ProductoRepo.Listar` | repository/producto_repo.py:108-134 | rows are ascending by id, with a missing price as 0; `stock_bajo` lists exactly the products with stock <= 30 and takes precedence; `sin_precio` lists exactly those without a price row; no flag lists all |
| `VentasRepo.LineasDe` | repository/ventas_repo.py:35-44 | one line per item, in order, tagged with the sale id |
| `VentasRepo.DeVentaSinVentaParten` | repository/ventas_repo.py:50-61 | a sale's lines and the other lines together are exactly the table's lines |
| `VentasRepo.InsertarVenta` | repository/ventas_repo.py:16-45 | the new state and the returned id are `InsertarVentaSpec` of the old state |
| `VentasRepo.InsertarVentaBienFormado` | repository/ventas_repo.py:16-45 | inserting a sale keeps the store well formed |
| `VentasRepo.InsertarVentaEfecto` | repository/ventas_repo.py:16-45 | the returned id was unused; the header is stored under it; its lines are exactly one per item; other sales' lines are unchanged; products, and so stock, and prices are unchanged |
| `VentasRepo.SumaParaReposicion` | repository/ventas_repo.py:55-59 | the restock loop gives each product the total quantity of that sale's lines for it |
| `VentasRepo.EliminarVenta` | repository/ventas_repo.py:48-61 | the loop over the sale's lines followed by the two deletes yields `EliminarVentaSpec` of the old state |
| `VentasRepo.EliminarVentaBienFormado` | repository/ventas_repo.py:48-61 | deleting a sale keeps the store well formed |
| `VentasRepo.EliminarVentaEfecto` | repository/ventas_repo.py:48-61 | each product's stock grows by the summed quantity of the sale's lines for it; the sale's lines and header are gone; other sales' lines and headers and all prices are unchanged |
| `VentasRepo.EliminarVentaNoTocaAjenos` | repository/ventas_repo.py:48-61 | a product none of the sale's lines names keeps its row |
| `VentasRepo.EliminarVentaNoListada` | repository/ventas_repo.py:48-61 | after deletion the sale appears in no listing |
| `VentasRepo.FilasVenta` | repository/ventas_repo.py:88-97 | one row (id, date, payment, total products, amount) per sale id, in order |
| `VentasRepo.ListarVentas` | repository/ventas_repo.py:67-97 | `listar(rango)`; its contract is carried by `ListarVentasExacto` and `EliminarVentaNoListada` |
| `VentasRepo.ListarVentasExacto` | repository/ventas_repo.py:67-97 | lists exactly the sales in the inclusive range, or all of them without one; each once, with its own header values, non-increasing by date |
| `VentasRepo.DetalleTrasInsertar` | repository/ventas_repo.py:100-110 | right after insertion, the detail of the new sale is one (name, quantity, amount) row per item, in item order |
| `VentasRepo.Detalle` | repository/ventas_repo.py:100-110 | `detalle(id)`; its contract is carried by `DetalleTrasInsertar`, `DetallePierdeBorrados` and `DetalleDeConcat` |
| `VentasRepo.SinProducto` | repository/ventas_repo.py:105 | keeps every line that does not name the product and only lines of the input, none naming it; a list without such lines is returned unchanged |
| `VentasRepo.SinProductoConcat` | repository/ventas_repo.py:105 | dropping a product's lines distributes over concatenation, so the kept lines stay in their order |
| `VentasRepo.DetalleDeSinProducto` | repository/ventas_repo.py:100-110 | after deleting a product, the detail of any line table is the detail of its lines that do not name that product |
| `VentasRepo.DetallePierdeBorrados` | repository/ventas_repo.py:100-110 | after deleting a product, a sale's detail is the detail of its lines for other products, so those rows survive; it never grows, and it is empty when every line named the deleted product |
| `VentasRepo.DetalleDeConcat` | repository/ventas_repo.py:100-110 | the detail of concatenated line tables is the concatenation of their details |
| `VentasService.ParseIntFormatInt` | services/ventas_service.py:38-41 | the quantity reader reads back every integer's decimal text |
| `VentasService.ParseIntRechaza` | services/ventas_service.py:38-41 | text with a character that is neither a digit nor a leading sign does not parse |
| `VentasService.MontoLinea` | services/ventas_service.py:50 | the amount is within half a unit of price × 1.19 × quantity, and halves round away from zero |
| `VentasService.PrepararItemsVenta` | services/ventas_service.py:22-60 | the loop with its early exit returns exactly `Preparar` of the entries |
| `VentasService.PrepararFallaSsi` | services/ventas_service.py:45-47 | the batch fails if and only if some accepted entry asks for more than its stock |
| `VentasService.PrepararPrimerExceso` | services/ventas_service.py:45-47 | the error names the first entry over stock, and no item list is returned |
| `VentasService.PrepararSinExceso` | services/ventas_service.py:36-60 | with no entry over stock, the result is one item per accepted entry, in entry order |
| `VentasService.ItemsDeAceptados` | services/ventas_service.py:38-43 | every item comes from an entry that parsed to a positive quantity |
| `VentasService.PrepararItemsValidos` | services/ventas_service.py:49-59 | every returned item has its entry's id and name, `0 < cantidad <= stock`, and the rounded VAT-inclusive amount of the current net price |
| `VentasService.PrepararStockInsuficiente` | services/ventas_service.py:45-47 | a quantity of 5 against a stock of 3 raises `StockError` for that product |
| `VentasService.PrepararIgualStock` | services/ventas_service.py:45-47 | a quantity equal to the stock is accepted |
| `VentasService.PrepararCorrecto` | services/ventas_service.py:49-59 | two units at net price 200 give one item of amount 476 |
| `VentasService.PrepararOmite` | services/ventas_service.py:38-43 | blank, non-numeric, zero and negative quantities are skipped without error |
| `VentasService.CrearVenta` | services/ventas_service.py:63-90 | inserting the header, then decrementing per item, yields `CrearVentaSpec` of the old state and the inserted id |
| `VentasService.CrearVentaEfecto` | services/ventas_service.py:63-90 | the header's totals are the sums of the items' amounts and quantities; the lines are the items; other sales' headers and lines are unchanged; each product's stock drops by its ordered quantity, with no re-check; prices are unchanged |
| `VentasService.PedidoAjeno` | services/ventas_service.py:87-88 | a product no item names is asked for 0 units |
| `VentasService.CrearVentaNoTocaAjenos` | services/ventas_service.py:87-88 | `crear_venta` leaves the row of a product no item names as it was |
| `VentasService.CrearVentaEjemplo` | services/ventas_service.py:74-88 | items 238 and 476, for 1 and 2 units, make a header of 714 and 3, and drop the two stocks by 1 and 2 |
| `VentasService.CrearEliminarVenta` | services/ventas_service.py:87-94 | deleting a sale just created restores every product's stock, the prices, the headers and the lines |
| `VentasService.EliminarVenta` | services/ventas_service.py:92-94 | forwards to the repository's deletion |
| `VentasService.ObtenerVentas` | services/ventas_service.py:96-98 | exactly the sales in the range, each once with its own header values, non-increasing by date, as `ListarVentasExacto` proves of the repository listing |
| `VentasService.VerDetalleVenta` | services/ventas_service.py:100-102 | the repository's detail; its contract is carried by `DetalleTrasInsertar` and `DetallePierdeBorrados` |
| `ReportRepository.EnRangoDe` | repository/report_repository.py:26 | only lines of sales dated within the inclusive window are kept |
| `ReportRepository.FetchSummary` | repository/report_repository.py:11-40 | the count is a natural number; the average is 0 with no sale in range, and otherwise the net sales divided by the count |
| `ReportRepository.ResumenSinVentas` | repository/report_repository.py:11-40 | with no sale dated in the window, the summary is net 0, count 0 and average 0 |
| `ReportRepository.NetoSinPrecios` | repository/report_repository.py:15 | lines of unpriced products add nothing to net sales |
| `ReportRepository.ResumenInsertarDentro` | repository/report_repository.py:11-40 | a sale inserted inside the window adds one to the count, even without lines, and adds its lines' net value to net sales |
| `ReportRepository.ReportesInsertarFuera` | repository/report_repository.py:11-98 | a sale dated outside the window changes no report |
| `ReportRepository.VentanaTrasInsertar` | repository/report_repository.py:26 | the window's lines gain exactly the new sale's lines when the sale's date is inside it |
| `ReportRepository.AgruparCorrecto` | repository/report_repository.py:53 | grouping gives one row per name, holding the sum over the lines with that name; products sharing a name merge |
| `ReportRepository.RankingCorrecto` | repository/report_repository.py:43-79 | at most k rows, non-increasing, distinct names, each total the sum for its name; a name left out has a total no larger than any listed row, and k rows are listed |
| `ReportRepository.RankingCompleto` | repository/report_repository.py:82-98 | without a limit, one row per name with contributions, distinct and non-increasing, each holding the sum of that name's contributions |
| `ReportRepository.SumaNombreConcat` | repository/report_repository.py:87 | a name's sum over concatenated contributions is the sum of the two parts |
| `ReportRepository.AportesUtilidad` | repository/report_repository.py:87-92 | a name's profit contributions add up to quantity × net profit over the lines of priced products with that name |
| `ReportRepository.FetchTopQuantity` | repository/report_repository.py:43-59 | at most 5 rows, non-increasing, distinct names; `RankingCorrecto` and `TopQuantityIgnoraPrecios` give the totals and the omitted names |
| `ReportRepository.FetchTopRevenue` | repository/report_repository.py:62-79 | at most 5 rows, non-increasing, distinct names; `RankingCorrecto` and `TopRevenueSoloConPrecio` give the totals and the priced-only join |
| `ReportRepository.FetchTopProfit` | repository/report_repository.py:82-98 | `fetch_top_profit`; its contract is carried by `FetchTopProfitCorrecto` |
| `ReportRepository.FetchTopProfitCorrecto` | repository/report_repository.py:82-98 | every name with a priced line in the window gets exactly one row, holding quantity × net profit summed over that name's lines in the window; rows are non-increasing, with no limit |
| `ReportRepository.TopQuantityIgnoraPrecios` | repository/report_repository.py:43-59 | the quantity ranking does not depend on the price table, so unpriced products count |
| `ReportRepository.TopRevenueSoloConPrecio` | repository/report_repository.py:62-79 | every revenue row's name belongs to a priced product with a line in range |
| `ReportService.RedondearResumen` | services/report_service.py:26-34 | both amounts are within half a unit of the raw values, an exact half going to the even integer as Python's `round` does, and the count passes through |
| `ReportService.GetSummaryReport` | services/report_service.py:26-34 | `get_summary_report`; its contract is carried by `RedondearResumen` and `GetSummaryReportExacto` |
| `ReportService.GetSummaryReportExacto` | services/report_service.py:26-34 | the rounded net sales equal the exact integer sum, the count equals the number of headers in range, and the average is 0 without sales |
| `ReportService.RedondearResumenEjemplo` | services/report_service.py:31-33 | 123.6 rounds to 124, 61.3 to 61, and the count 2 passes through |
| `ReportService.RoundHalfEvenEmpates` | services/report_service.py:31 | Python's `round` sends 2.5 to 2, 3.5 to 4 and -0.5 to 0 |
| `ReportService.RedondearFilas` | services/report_service.py:43-54 | same length, order and names; each value within half a unit of the raw total, an exact half going to the even integer |
| `ReportService.TruncarFilas` | services/report_service.py:37-40 | same length, order and names; each non-negative value truncated |
| `ReportService.GetTopQuantityReport` | services/report_service.py:37-40 | the same number of rows as `fetch_top_quantity`, with the same names in the same order |
| `ReportService.GetTopRevenueReport` | services/report_service.py:43-47 | the same number of rows as `fetch_top_revenue`, with the same names in the same order |
| `ReportService.GetTopProfitReport` | services/report_service.py:50-54 | the same number of rows as `fetch_top_profit`, with the same names in the same order |
| `ReportService.TopReportsSonRankings` | services/report_service.py:37-54 | with integer totals, the three top reports equal the repository rankings row for row |
| `ReportService.TopRedondeoEjemplo` | services/report_service.py:37-54 | 5.0 becomes 5, 250.7 becomes 251 and 80.2 becomes 80 |
| `ReportService.VentanaAnterior` | services/report_service.py:74-75 | the previous window ends the day before the start and spans `days` days |
| `ReportService.VentanaAnteriorEjemplo` | services/report_service.py:74-75 | with `days` = 15 the previous window is the 15 days `desde - 15` to `desde - 1` |
| `ReportService.Variacion` | services/report_service.py:82-87 | with prev non-zero, curr = prev × (1 + variation); with prev zero, 1.0 exactly when curr is non-zero and 0.0 exactly when it is zero |
| `ReportService.ComoMapa` | services/report_service.py:30-34 | the summary dictionary has exactly the keys ventas_netas, cantidad_ventas and ticket_promedio, with the summary's values |
| `ReportService.CalcularVariaciones` | services/report_service.py:80-87 | the loop gives exactly one variation per key of `actual`, with a missing previous key read as 0 |
| `ReportService.GetComparisonReport` | services/report_service.py:57-88 | returns the rounded current and previous summaries unchanged, and their variations |
| `ReportService.ComparacionNoCero` | services/report_service.py:84-85 | a concrete case with every previous value non-zero: each variation is (curr - prev) / prev, here 1.0 |
| `ReportService.ComparacionCeros` | services/report_service.py:86-87 | against an all-zero previous window, each key's variation is 1.0 exactly when its current value is non-zero and 0.0 exactly when it is zero |
| `ReportService.VariacionSobreRedondeados` | services/report_service.py:76-78 | variation uses the rounded summaries: a previous net of 0.4 rounds to 0, so a non-zero current net gives 1.0 |

## Left out

- File export (`exportar_excel` in both repositories, `export_report`, `_export_to_excel`, `_export_to_pdf`), the Tkinter screens and number formatting: file I/O and presentation.
- Connection handling (`repository/db.py`), pooling, commit and rollback: each repository call is one atomic step. `crear_venta` is two steps in sequence, with no failure between them.
- A stock trigger in the database schema. The integration test `tests/repository/test_ventas_repo.py:61-63` expects stock to drop after `insertar_venta` alone. `insertar_venta` (repository/ventas_repo.py:16-45) does not do that, so the model keeps stock unchanged on insertion (`VentasRepo.InsertarVentaEfecto`). Only `crear_venta` decrements stock, and `eliminar_venta` increments it.
- `VentasService.MontoLinea`: computes 1.19 exactly, not as a binary float. The two can differ on half-unit cases. For example, net price 10 with quantity 5 is `10 * 1.19 * 5 == 59.49999999999999` as a float, which rounds to 59, while the exact value 59.5 rounds to 60.
- `VentasService.ParseInt`: Python's `int()` also accepts surrounding whitespace, `_` between digits and non-ASCII digits. These are not modelled. Such text counts as unparsable, so it is skipped.
- `Tables.Database.utilidadDe`: the `utilidad_neta` column comes from a schema that is not part of this model, and is modelled as a fixed function of the net price.
- The database's order for equal sort keys is unspecified. The model fixes one order: ascending id for sales on the same date, and first appearance for ranked names with equal totals.
- `VentasRepo.Detalle`: the `detalle` query has no ORDER BY. The model returns the rows in the order of the line table, which is insertion order, so `DetalleTrasInsertar`'s "in item order" rests on that choice.
- Fixed-width SQL integers: stock, quantities and amounts are unbounded `int`. The database would raise an error on overflow, for example in `SUM(vp.cantidad)::INT` or in the stock `UPDATE`s. The model never fails there.
- `ReportService.Variacion`: the float division `(curr - prev) / prev` is exact `real` division, with no float rounding.
- `ReportRepository.FetchSummary`: net sales and the average are `real`. `numeric` division precision and float conversion are not modelled.
- `VentasService.Mensaje`: the exception's text is a plain string concatenation with no property worth stating.
- `ReportService.TruncarFilas`: the quantity totals are integers (`SUM(...)::INT`), so the bound is stated only for non-negative values.
- `services/producto_service.py` and `utils/validation_utils.py` are not part of this model. They are forwarding and library wrappers.
