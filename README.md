# Grain reception console — a verified model

This project models the console of a grain-receiving plant, which runs in the browser and keeps its tables in local storage. A truck's day goes through these stages:

1. A quota (`cupo`) is issued for a plate, a product and a date. The operation is created in state **P**.
2. The truck checks in at the gate (**A**).
3. Quality inspection either passes it (**C**) or rejects it (**R**).
4. The weighbridge records the gross weight (**B**) and then the tare (**F**).

When the tare is recorded, the net weight is poured into the silos of the truck's product in stored order. This is "the cascade". The plant-wide capacity check runs before the cascade.

The model also covers:
- the silo monitor's manual stock-out;
- the list of rejected trucks;
- the master-data screens for products, rubrics (quality criteria), silos and per-product rubric ranges;
- the fleet screen, with trucks, maintenance records and the inspection (VTV) badge;
- the reports page;
- the dashboard counters.

The storage keys (`operaciones_dat`, `silos_dat`, `productos_dat`, `rubros_dat`, `rubrosXproducto_dat`, `flota_dat`, `mantenimientos_dat`) are modelled as sequences. Every handler replaces them wholesale.

Some values are inputs to the model rather than computed by it:
- **"Today"** is the parameter `hoy`, a `YYYY-MM-DD` string.
- **Number fields** are `Option<int>`, with `None` for an empty field.
- **Weights** are whole kilograms.

One file per screen:

| file | module | screen |
|---|---|---|
| domain.dfy | `Domain` | the stored records and the invariants of the ledger |
| seqs.dfy | `Seqs` | `filter` and counting, with their algebra |
| text.dfy | `Text` | `toUpperCase`, `replace(/\s/g, "")`, `includes`, `split`, the plate pattern |
| cupos.dfy | `EntregaCupos` | quota intake |
| recepcion.dfy | `Recepcion` | gate check-in |
| calidad.dfy | `RegistrarCalidad` | quality inspection |
| pesaje.dfy | `Pesaje` | weighbridge and cascade |
| silos.dfy | `SilosYRechazos` | stock-out and rejected trucks |
| admin.dfy | `Admin` | master data |
| flota.dfy | `GestionFlota` | fleet and maintenance |
| reportes.dfy | `Reportes` | reports |
| dashboard.dfy | `MenuDashboard` | dashboard counters and critical silos |

The weighbridge's save handler is the only code that works step by step:
- It is the class `Pesaje.Balanza`. Its two storage fields are written together by `EjecutarGuardado`.
- The cascade loop is the method `Pesaje.Distribuir`. It is proved equal to the recursive specification `Pesaje.Cascada`.
- The quality handler's counting loop is the method `RegistrarCalidad.ContarCorrectos`.

Everything else in the source is written as `filter`/`map`/`find`/`some` over immutable arrays, so it is modelled as functions.

## Model

| member | source | states |
|---|---|---|
| Text.Mayusculas | src/components/EntregaCupos.tsx:84 | same length; position by position, the upper-case mapping of ASCII letters, every other character kept |
| Text.SinEspacios | src/components/EntregaCupos.tsx:84 | the result holds no white space and is no longer than the input |
| Text.SinEspaciosConserva | src/components/EntregaCupos.tsx:84 | stripping keeps every character that is not white space, as many times as it occurs |
| Text.SinEspaciosIdentidad | src/components/EntregaCupos.tsx:89 | a string with no white space is unchanged by stripping |
| Text.SinEspaciosIdempotente | src/components/EntregaCupos.tsx:89 | stripping twice is stripping once, so comparing stripped stored plates with the normalised one is stable |
| Text.ContieneSii | src/components/GestionFlota.tsx:454-455 | `includes` is true exactly when the needle occurs at some position |
| Text.Dividir | src/components/Admin.tsx:575 | `split` yields at least one piece |
| Text.DividirPiezas | src/components/Admin.tsx:575 | no piece of a split contains the separator |
| Text.DividirSinSeparador | src/components/Admin.tsx:575 | a string without "-" splits into itself alone |
| Text.DividirPrimero | src/components/Admin.tsx:575 | the first piece is everything before the first separator |
| Text.PatenteValida | src/components/EntregaCupos.tsx:19-25 | accepted exactly when at least 6 characters long and matching either the old `AAA 123` or the Mercosur `AA 123 AA` pattern (case-insensitive, optional single spaces); then the length is 6 to 9 |
| Text.PatenteNormalizada | src/components/EntregaCupos.tsx:83-85 | a valid plate, upper-cased and stripped, is six or seven upper-case letters and digits |
| Text.QuitaUnEspacio | src/components/EntregaCupos.tsx:84 | removing the one white-space character of a string otherwise made of upper-case letters and digits leaves one character fewer, all of them letters and digits |
| Text.QuitaDosEspacios | src/components/EntregaCupos.tsx:84 | removing two white-space characters from such a string leaves two characters fewer, all of them letters and digits |
| Text.SinEspaciosPartes | src/components/EntregaCupos.tsx:84 | stripping one white-space character between two space-free parts joins them |
| Text.SinEspaciosConcat | src/components/EntregaCupos.tsx:84 | stripping distributes over concatenation |
| Seqs.Filter | src/components/Reportes.tsx:26-29 | the kept elements are exactly those satisfying the predicate; the result is no longer than the input |
| Seqs.FilterMultiset | src/components/Reportes.tsx:26-29 | each element satisfying the predicate is kept as often as it occurs, every other element is dropped |
| Seqs.FilterAppend | src/components/Reportes.tsx:32-40 | filtering distributes over concatenation |
| Seqs.CountSnoc | src/components/RegistrarCalidad.tsx:93-97 | appending one element adds one to a count exactly when it satisfies the predicate |
| Seqs.FilterTodos | src/components/MenuDashboard.tsx:34-36 | filtering a list whose every element passes returns it unchanged |
| Seqs.FilterSame | src/components/MenuDashboard.tsx:34-36 | two predicates that agree on every element filter a list alike |
| Seqs.CountDisjoint | src/components/Reportes.tsx:32-40 | counts of two predicates that never hold together add up to the count of their union |
| Seqs.CountMono | src/components/MenuDashboard.tsx:27-36 | a stronger predicate never counts more |
| Seqs.CountComplement | src/components/Reportes.tsx:32-40 | the count of a predicate plus that of its negation is the length |
| EntregaCupos.ValidarEsquema | src/components/EntregaCupos.tsx:18-32 | the form passes exactly when the plate is valid, a product is chosen and a date is set; the plate error is reported exactly when the plate fails its rule |
| EntregaCupos.Normalizar | src/components/EntregaCupos.tsx:83-85 | the duplicate-check key holds no white space and is no longer than the plate |
| EntregaCupos.ProductosActivos | src/components/EntregaCupos.tsx:207-213 | the selector offers exactly the active products, with their multiplicity |
| EntregaCupos.EntregaSii | src/components/EntregaCupos.tsx:76-116 | schema error first; then a duplicate (same stripped plate, same day, any state) whatever the product; then an unknown or disabled product; a quota is accepted exactly when none of these applies |
| EntregaCupos.EntregaAgrega | src/components/EntregaCupos.tsx:107-116 | acceptance appends one operation after the stored ones: state P, no weights, the upper-cased plate (spaces kept), the form's product and date, and a normalised plate of six or seven letters and digits |
| EntregaCupos.PatentesUnicasImplicaClaves | src/components/EntregaCupos.tsx:87-96 | unique stripped plates per day imply unique (plate, date) pairs |
| EntregaCupos.EntregaPreservaUnicidad | src/components/EntregaCupos.tsx:87-116 | intake keeps stripped plates unique per day, (plate, date) pairs unique and the recorded weights consistent |
| EntregaCupos.SegundoCupoDuplicado | src/components/EntregaCupos.tsx:83-96 | once a quota is accepted, a second form for the same day whose plate differs only in case and spacing is refused as a duplicate |
| Recepcion.CuposPendientesHoy | src/components/Recepcion.tsx:47-49 | exactly today's operations in state P, with their multiplicity |
| Recepcion.RegistrarArribo | src/components/Recepcion.tsx:65-71 | position by position, the selected plate's operations dated today in state P become A and the rest are kept |
| Recepcion.ArriboCorrecto | src/components/Recepcion.tsx:65-71 | check-in changes only `estado`, only from P to A and only on the plate's quota of today; afterwards the truck has left today's pending list |
| Recepcion.ArriboIdempotente | src/components/Recepcion.tsx:65-71 | confirming the same arrival twice changes nothing the second time |
| Recepcion.ArriboCoherente | src/components/Recepcion.tsx:65-71 | check-in keeps recorded weights consistent and (plate, date) pairs unique |
| Recepcion.BuscarProducto | src/components/Recepcion.tsx:53 | `find`: none exactly when no product has the code, otherwise the first that has it |
| Recepcion.NombreProductoSii | src/components/Recepcion.tsx:52-55 | the name shown is that of the first product with the code |
| Recepcion.NombreProductoDesconocido | src/components/Recepcion.tsx:52-55 | with no product for the code, the label "CÓDIGO: " followed by the code is shown |
| RegistrarCalidad.CamionesEsperandoCalidad | src/components/RegistrarCalidad.tsx:62-64 | exactly today's operations in state A, with their multiplicity |
| RegistrarCalidad.RubrosDelProducto | src/components/RegistrarCalidad.tsx:77-79 | exactly the ranges of the operation's product, each with its multiplicity |
| RegistrarCalidad.ValoresIniciales | src/components/RegistrarCalidad.tsx:66-72 | the form opens with one empty field per rubric of the product and no other field |
| RegistrarCalidad.CantCorrectosSnoc | src/components/RegistrarCalidad.tsx:93-97 | one more rubric adds one to the count exactly when its value is inside its range |
| RegistrarCalidad.AplicarEstado | src/components/RegistrarCalidad.tsx:103-111 | position by position, the plate's operations dated today get the verdict and the rest are kept |
| RegistrarCalidad.ContarCorrectos | src/components/RegistrarCalidad.tsx:93-97 | the loop's counter equals the number of rubrics whose value lies in `[valmin, valmax]` |
| RegistrarCalidad.ProcesarCalidad | src/components/RegistrarCalidad.tsx:81-111 | the handler refuses an incomplete form and otherwise writes C or R as the acceptance rule decides |
| RegistrarCalidad.AceptacionSii | src/components/RegistrarCalidad.tsx:81-103 | a complete form is accepted exactly when no rubric is out of range, or exactly one is and the product has more than one rubric; an incomplete form is refused and nothing is written |
| RegistrarCalidad.VeredictoEscrito | src/components/RegistrarCalidad.tsx:103-111 | the verdict reaches exactly the plate's operations dated today, whatever their state |
| RegistrarCalidad.FormularioInicialIncompleto | src/components/RegistrarCalidad.tsx:66-91 | submitting the form as it opened is refused whenever the product has a rubric |
| RegistrarCalidad.CalidadCoherente | src/components/RegistrarCalidad.tsx:103-111 | the verdict keeps recorded weights consistent and (plate, date) pairs unique |
| Pesaje.CamionesEnEspera | src/components/Pesaje.tsx:63-65 | exactly today's operations in state C or B, with their multiplicity |
| Pesaje.DisponibleFiltro | src/components/Pesaje.tsx:135-143 | the free space offered, summed silo by silo, equals filtering the silos by product and summing `capacidad - stock` over what is left |
| Pesaje.DisponibleSinSilos | src/components/Pesaje.tsx:135-146 | with no silo for the product the plant offers no space |
| Pesaje.CascadaForma | src/components/Pesaje.tsx:161-176 | the cascade keeps length and order; only `stock` changes, only on the product's silos, only upwards and never above capacity; one positive log line per loaded silo |
| Pesaje.CascadaConserva | src/components/Pesaje.tsx:161-176 | conservation: the kilograms taken from the remainder equal the log's total and the silos' gain; the remainder never goes negative |
| Pesaje.CascadaCompleta | src/components/Pesaje.tsx:140-176 | a net weight within the checked free space is poured in full, over-filled silos notwithstanding |
| Pesaje.CascadaLedger | src/components/Pesaje.tsx:161-176 | the cascade keeps `0 <= stock <= capacidad` on every silo |
| Pesaje.CargaVoraz | src/components/Pesaje.tsx:165-170 | one silo's load is never negative, and a positive load goes only to a silo of the product and is at most its free space and at most what is pending |
| Pesaje.CascadaAgotada | src/components/Pesaje.tsx:164-165 | with nothing left to pour, every silo is left as it was |
| Pesaje.CascadaVoraz | src/components/Pesaje.tsx:161-176 | the greedy rule, silo by silo of the result: the silo at position `k` gains `min(free, pending)` when it holds the product and has free space and something is pending, and nothing otherwise; "pending" is the net weight minus what the silos before it gained |
| Pesaje.CascadaLlenaAntes | src/components/Pesaje.tsx:161-176 | a product silo placed before any silo that received grain ends at or above its capacity |
| Pesaje.Distribuir | src/components/Pesaje.tsx:161-176 | the loop produces the same silos, log and remainder as the cascade specification |
| Pesaje.RegistrarBruto | src/components/Pesaje.tsx:101-108 | position by position, the plate's operations of today in state C get the gross weight and state B; the rest are kept |
| Pesaje.RegistrarTara | src/components/Pesaje.tsx:178-184 | position by position, the plate's operations of today in state B get the tare and state F; the rest are kept |
| Pesaje.PesarRechazaPesoInvalido | src/components/Pesaje.tsx:88-95 | a missing selection, an empty field or a weight of at most zero is refused first |
| Pesaje.PesarBruto | src/components/Pesaje.tsx:100-119 | a gross step records the weight and state B on the plate's C operations of today, and does not touch the silos |
| Pesaje.PesarTaraOrden | src/components/Pesaje.tsx:122-132 | a tare at or above the gross weight is refused; one below leaves a positive net |
| Pesaje.PesarCapacidad | src/components/Pesaje.tsx:134-158 | the unload is blocked, reporting the net and the free space, exactly when the net exceeds the product's total free space; with no silo for the product every unload is blocked |
| Pesaje.PesarDistribucion | src/components/Pesaje.tsx:160-201 | a tare step that passes the checks pours the whole net; the log and the silos agree with it; confirmation is asked exactly when more than one silo was loaded; the plate's B operations of today take the tare and become F |
| Pesaje.EscenarioDosSilos | src/components/Pesaje.tsx:134-201 | two soybean silos with 100 kg and 1000 kg free and a net of 500 kg: the first gets 100 kg, the second 400 kg, two log lines, confirmation asked, the operation finished |
| Pesaje.PesarCoherente | src/components/Pesaje.tsx:87-202 | when the save handler writes operations, they stay as many, each keeps its plate and date, the recorded weights stay consistent and (plate, date) pairs stay unique |
| Pesaje.Balanza.constructor | src/components/Pesaje.tsx:37-41 | the store starts with the given operations and silos |
| Pesaje.Balanza.EjecutarGuardado | src/components/Pesaje.tsx:68-85 | the commit writes operations and silos together |
| Pesaje.Balanza.GuardarMovimiento | src/components/Pesaje.tsx:87-203 | returns the handler's outcome. A gross step, or a load that fits one silo, is committed at once. A refusal, or a split load waiting for confirmation, leaves the store as it was |
| SilosYRechazos.ValidarSalida | src/components/SilosYRechazos.tsx:85-96 | an amount is accepted exactly when it is present, positive and at most the selected silo's stock; the accepted value is the amount typed |
| SilosYRechazos.AplicarSalida | src/components/SilosYRechazos.tsx:104-106 | position by position, every silo with the selected code loses the amount and the rest are kept |
| SilosYRechazos.SalidaCorrecta | src/components/SilosYRechazos.tsx:81-108 | an accepted stock-out changes only `stock`, only on silos with the selected code, and lowers it by exactly the amount |
| SilosYRechazos.SalidaPreservaLedger | src/components/SilosYRechazos.tsx:81-108 | with unique silo codes and the selection taken from the ledger, a stock-out keeps `0 <= stock <= capacidad` |
| SilosYRechazos.SalidaRechazada | src/components/SilosYRechazos.tsx:85-96 | an empty, non-positive or excessive amount is refused with its own message |
| SilosYRechazos.CamionesRechazados | src/components/SilosYRechazos.tsx:69-72 | exactly the R operations, restricted to the chosen day when one is set |
| Admin.IdEdicion | src/components/Admin.tsx:368 | editing exactly when the edit key is set and not empty |
| Admin.Reemplazar | src/components/Admin.tsx:369-377 | position by position, every record whose key is the edited one becomes the payload and the rest are kept |
| Admin.ConfirmarRechazos | src/components/Admin.tsx:355-366 | a missing name (outside the relation table) is reported first, then a missing code; nothing changes and the form stays |
| Admin.ConfirmarEdicion | src/components/Admin.tsx:368-382 | saving an edit replaces the records with the edited key, reports "updated" and resets the form |
| Admin.ConfirmarAlta | src/components/Admin.tsx:383-409 | adding is refused, with nothing changed, exactly when the looked-up key is taken; otherwise the payload is appended, "registered" is reported and the form is reset |
| Admin.ConfirmarPreservaClaves | src/components/Admin.tsx:368-402 | when the looked-up key is the payload's own, confirming keeps the keys distinct |
| Admin.ProductoNuevoActivo | src/components/Admin.tsx:440-445 | a product saved from a complete form is stored active, under the typed code and name |
| Admin.StockPrevio | src/components/Admin.tsx:524-526 | an edited silo keeps the stock of the first silo with its code, and starts at 0 when there is none |
| Admin.ConfirmarSiloCorrecto | src/components/Admin.tsx:507-528 | the silo form requires a product and then a capacity before the common checks; a refusal leaves the table alone; a new silo is appended empty with the typed capacity; an edit keeps the stock of the silo being edited |
| Admin.AltaRelacionParSii | src/components/Admin.tsx:559-572 | with the lookup by (product, rubric) pair, adding a relation is refused exactly when that pair is already stored |
| Admin.AltaRelacionColision | src/components/Admin.tsx:383-394 | as written, a relation whose composite key collides with another pair's is refused although its pair is new |
| Admin.EliminarPorClave | src/components/Admin.tsx:453 | deleting by key keeps exactly the records with another key, with their multiplicity and order |
| Admin.EliminarRelacionPar | src/components/Admin.tsx:574-585 | deleting by pair keeps exactly the relations of other pairs, with their multiplicity |
| Admin.EliminarRelacionSinGuion | src/components/Admin.tsx:574-585 | when neither code contains "-", the delete as written is the delete by pair |
| Admin.EliminarRelacionConGuion | src/components/Admin.tsx:574-585 | as written, deleting the relation of product "SOJA-1" with rubric "HUM" keeps it and deletes product "SOJA"'s range for rubric "1" |
| GestionFlota.ValidarCamion | src/components/GestionFlota.tsx:212-230 | the truck form passes exactly when the plate is valid, the driver has at least 3 characters, the inspection date is set and the oil-change reading is not negative |
| GestionFlota.ReemplazarCamion | src/components/GestionFlota.tsx:312-315 | position by position, every truck with the plate becomes the new record and the rest are kept |
| GestionFlota.GuardarCamionCorrecto | src/components/GestionFlota.tsx:302-326 | a schema error refuses the form; adding a registered plate is refused; otherwise adding appends the upper-cased record and editing replaces by plate |
| GestionFlota.GuardarCamionPreservaPatentes | src/components/GestionFlota.tsx:312-323 | adding or editing keeps plates distinct |
| GestionFlota.CambioRapidoEstado | src/components/GestionFlota.tsx:371-380 | position by position, the trucks with the plate get the new state and the rest are kept |
| GestionFlota.CambioRapidoSoloEstado | src/components/GestionFlota.tsx:371-378 | a quick state change touches only `estado`, and only on the trucks with the plate |
| GestionFlota.SinCamion | src/components/GestionFlota.tsx:394 | exactly the trucks with another plate, with their multiplicity |
| GestionFlota.SinMantenimientos | src/components/GestionFlota.tsx:395 | exactly the maintenance records of other plates, with their multiplicity |
| GestionFlota.EliminacionEnCascada | src/components/GestionFlota.tsx:391-400 | a confirmed delete removes the truck and its whole maintenance history; the form is cleared exactly when the deleted truck was being edited; with no truck chosen nothing changes |
| GestionFlota.ActualizarKm | src/components/GestionFlota.tsx:420-426 | position by position, the trucks with the plate get the new oil-change reading and the rest are kept |
| GestionFlota.GuardarMantenimientoCorrecto | src/components/GestionFlota.tsx:402-434 | with no open truck nothing happens; an empty description or cost is refused; otherwise the record goes first, for the open truck, with the description upper-cased, the typed cost and the odometer (0 when empty), and the truck's reading rises to that odometer only when it is higher |
| GestionFlota.KmNuncaBaja | src/components/GestionFlota.tsx:420-428 | when the dialog's copy is the stored truck, its oil-change reading never decreases |
| GestionFlota.EliminarMantenimiento | src/components/GestionFlota.tsx:436-439 | once confirmed, exactly the records with another id remain; unconfirmed, nothing changes |
| GestionFlota.VerificarVencimiento | src/components/GestionFlota.tsx:441-450 | no date gives the neutral badge; a past date gives "expired", 0 to 29 days left "warning", and 30 days or more "ok" |
| GestionFlota.FlotaFiltrada | src/components/GestionFlota.tsx:452-459 | the listed trucks are exactly those matching search and state filter, with their multiplicity |
| GestionFlota.FlotaFiltradaSii | src/components/GestionFlota.tsx:452-459 | a truck is listed exactly when the upper-cased search text occurs in its plate or driver and the state filter admits it |
| GestionFlota.FlotaSinFiltro | src/components/GestionFlota.tsx:452-459 | an empty search with every state shows the whole fleet unchanged |
| Reportes.OpsFiltradas | src/components/Reportes.tsx:26-29 | "today" keeps exactly the operations dated today, and "all" keeps all of them |
| Reportes.RecibidosMasRechazados | src/components/Reportes.tsx:32-40 | the received, rejected and pending counts add up to the number of quotas of the period |
| Reportes.EstadisticasPorProducto | src/components/Reportes.tsx:46-68 | one row per product, in the product list's order |
| Reportes.SumaNetoPositiva | src/components/Reportes.tsx:51-54 | when every operation's tare is below its gross weight, the net total is at least one kilogram per operation |
| Reportes.EstadisticaCorrecta | src/components/Reportes.tsx:46-65 | each row carries the product's name; it counts exactly the period's operations of that product, the rejected ones never exceed them, and with consistent weights the net total is at least one kilogram per finished operation |
| MenuDashboard.EtapasAcotadas | src/components/MenuDashboard.tsx:27-36 | the stage counters never exceed today's quotas, and their sum never does either |
| MenuDashboard.ParaBalanzaEsCola | src/components/MenuDashboard.tsx:34-36 | the "at the weighbridge" counter is the length of the weighbridge's queue |
| MenuDashboard.SiloCriticoCociente | src/components/MenuDashboard.tsx:38-40 | the integer test used for a critical silo is exactly "capacity positive and stock/capacity > 0.9" |
| MenuDashboard.CocienteMayor | src/components/MenuDashboard.tsx:38-40 | for positive capacity, a quotient above 0.9 is the same as ten times the stock exceeding nine times the capacity |
| MenuDashboard.CriticoCasiLleno | src/components/MenuDashboard.tsx:38-40 | the critical-silo count is at most the number of silos, and on a valid ledger each critical silo has less than a tenth of its capacity free |

## Left out

- Unicode: `toUpperCase` is modelled on the ASCII letters only. The plate rule admits only those, but three free-text fields go through it too: the driver's name (src/components/GestionFlota.tsx:306), the maintenance description (src/components/GestionFlota.tsx:413) and the fleet search text (src/components/GestionFlota.tsx:454-455). For a non-ASCII letter the model keeps the lower-case letter where the browser upper-cases it. A driver "peña" is stored as "PEÑA" by the browser and "PEñA" by the model, so a search for "ñ" lists that truck there but not in `GestionFlota.FlotaFiltradaSii`.
- Number parsing: decimals and the `Number(...)` and `parseFloat` conversions of typed text are not modelled. Number fields are whole numbers or empty.
- Dates:
  - `new Date()`, `toISOString` and the day-difference computation of the inspection badge are not modelled.
  - "Today" and the formatted dates are parameters, and so is the difference in days.
  - A maintenance record saved without a date uses "today" as its date.
- The map: the Leaflet map and the trucks' coordinates are carried as fields, and nothing is proved about them.
- Displayed floating-point values are not modelled. These are the report percentages, efficiency and average, the silo fill percentages, and `toLocaleString` formatting. Only the integer counts and sums behind them are modelled, plus the critical-silo test, which is proved equal to its real-number form.
- The UI:
  - Modals, toasts and rendering are not modelled.
  - The `window.confirm` prompts are a boolean parameter.
  - `Date.now()` ids are a parameter.
  - The multi-silo confirmation modal is the point where `Pesaje.Balanza.GuardarMovimiento` returns without writing; `Pesaje.Balanza.EjecutarGuardado` is the confirmed commit.
- Form libraries: the schema library and the form library are modelled as the checks they perform. Errors are reported field by field in declaration order, whereas the library may show several at once. Only whether a form passes is meant to match exactly.
- Display lookups: the weighbridge's "CÓD:" product label and the rejected list's "S/P" label are display-only lookups and are left out. The check-in screen's equivalent lookup is modelled by `Recepcion.NombreProducto`.
- Missing selection: the quality and stock-out handlers return at once when nothing is selected. The model takes the selection as a given value; the weighbridge models it as `Option`.
- Concurrency: the tables are read and written by one tab at a time. Races between browser tabs are not modelled, and neither are serialisation and parse failures of local storage.
- Arrays: `Pesaje.Balanza` holds its tables as sequences, not arrays, because the source never updates an array in place. Each write builds a new array with `map` and stores it.
- `Admin.ConfirmarRelacion`: when editing, it does not re-check that the new pair is free. The source does not re-check it either. The model keeps that behaviour and states nothing stronger.
- `RegistrarCalidad.ProcesarCalidad`: the counting loop of the handler is the separate method `RegistrarCalidad.ContarCorrectos`, which the handler calls.
- Settings, the landing page and the routing shell (`SettingsModal.tsx`, `LandingPage.tsx`, `App.tsx`) are not part of this model.

## Findings

| source | as written | input that shows it | evidently intended | confidence | as-written member | corrected member |
|---|---|---|---|---|---|---|
| src/components/Admin.tsx:574-585 | the delete button rebuilds the relation from its key `codigoprod + "-" + codigorub` by `split("-")` and deletes every relation matching the first two pieces | relations (product "SOJA-1", rubric "HUM") and (product "SOJA", rubric "1"); deleting the first | delete exactly the relations of the clicked (product, rubric) pair | medium, not executed | Admin.EliminarRelacionConGuion | Admin.EliminarRelacionPar |
| src/components/Admin.tsx:383-394 | a new relation is refused when some stored relation has the same composite key string | stored (product "A", rubric "B-C"); adding product "A-B" with rubric "C" | refuse only when the same (product, rubric) pair is stored | medium, not executed | Admin.AltaRelacionColision | Admin.AltaRelacionParSii |
