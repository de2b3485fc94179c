# Stock keeping in `MovimientoController` (inventario_coprotab)

This project models the stock logic of the inventory tracker's movement controller. It works on two tables:

- **Componentes**: id → name (`Nombre`) and current stock (`Cantidad`);
- **Movimientos**: id → device, movement type, quantity, location, responsible person, notes and date.

It models four handlers:

- **CreateComponenteModal** checks a component movement against the stock and adjusts it. `"Entrada"` adds the quantity. `"Salida"` subtracts it, or is refused when the stock is smaller, and the refusal reports the available stock. Any other type (`"Traslado"`) leaves the stock alone. No movement row is written: the code records the movement only "conceptually".
- **Edit** (POST) overwrites the seven mutable fields of a movement row. It never touches component stock.
- **Delete** removes a movement row if it exists and answers whether it did.
- **Details** looks a movement up by an id that may be null.

Files:

- `models.dfy` (module `Models`) holds the records and forms. It also holds `Int32` and `Wrap`: C# `int` arithmetic is unchecked 32-bit arithmetic, so `Cantidad += q` and `Cantidad -= q` wrap on overflow.
- `stock.dfy` (module `Stock`) states each handler as a function from the tables before a request to the outcome and the tables after it. It also proves lemmas about single requests and about runs of requests (`Run`).
- `controller.dfy` (module `Controller`) holds the class `MovimientoController`. It has two `map` fields, and its handlers update them in place. Each handler's `ensures` ties the new state to the matching `Stock` function of the old state and states the frame directly.

Inputs the handlers get from the framework become parameters:

- `valid` stands for `ModelState.IsValid`.
- `saved` stands for whether `SaveChangesAsync` succeeded in `Edit`.
- `DateTime` values are integer ticks.

Three behaviours of the code that a stock ledger might be expected not to have:

- Creating a component movement inserts no movement row.
- A non-positive quantity is not rejected.
- A movement type other than `"Entrada"`/`"Salida"` is accepted and leaves stock unchanged.

## Model

| member | source | states |
|---|---|---|
| `Models.Wrap` | Controllers/MovimientoController.cs:141-148 | the counter update is 32-bit two's-complement: equal to the true sum when that fits, and congruent to it modulo 2^32 always |
| `Stock.AdjustStock` | Controllers/MovimientoController.cs:120-148 | refused exactly when a "Salida" asks for more than the stock; an "Entrada" adds (exactly when no overflow); an accepted "Salida" leaves stock − quantity, which is ≥ 0, whenever that difference fits in 32 bits (always for a non-negative quantity), and is congruent to it modulo 2^32 otherwise; any other type leaves the stock unchanged |
| `Stock.CreateComponente` | Controllers/MovimientoController.cs:107-166 | the movements table never changes and only the targeted component's stock can change; an invalid form changes nothing and shows the component's name and stock, or "Desconocido" and 0; a missing component is an error with no change; an over-large "Salida" is refused with the component's name and current stock as available and no change; otherwise `Created`, with the stock the adjuster gives |
| `Stock.Edited` | Controllers/MovimientoController.cs:243-249 | the edited row's seven fields are the form's |
| `Stock.EditMovimiento` | Controllers/MovimientoController.cs:215-270 | checks in order: id ≤ 0 → NotFound, invalid form → shown again, missing row → NotFound, null type → exception, failed save → error; none of these changes anything; a saved edit overwrites exactly that row with the form's fields; no component stock ever changes and no row is added or removed |
| `Stock.DeleteMovimiento` | Controllers/MovimientoController.cs:275-285 | success iff the id was present; afterwards the id is absent, the other rows are unchanged and components are untouched; a failed delete changes nothing |
| `Stock.LedgerNeverGrows` | Controllers/MovimientoController.cs:136-138 | after any run of requests the movement ids are a subset of the original ones: no handler inserts a movement |
| `Stock.ComponentsStayTheSame` | Controllers/MovimientoController.cs:112-151 | after any run of requests the set of component ids is unchanged |
| `Stock.EditAndDeleteKeepStock` | Controllers/MovimientoController.cs:242-285 | any run of edits and deletes leaves every component's stock as it was, whatever the ledger now holds |
| `Stock.CreatesKeepLedger` | Controllers/MovimientoController.cs:136-153 | any run of stock requests leaves the movements table exactly as it was |
| `Stock.CreateKeepsStockNonNegative` | Controllers/MovimientoController.cs:120-148 | with non-negative stocks and a non-negative quantity that does not overflow an "Entrada", every stock stays non-negative |
| `Stock.EntradaThenSalidaRestores` | Controllers/MovimientoController.cs:141-148 | for any quantity q, a "Salida" of q after an "Entrada" of q (non-negative stock, no overflow in the "Entrada") is accepted and restores the tables |
| `Stock.SalidaThenEntradaRestores` | Controllers/MovimientoController.cs:120-148 | for any quantity q up to the stock (so the "Salida" is accepted), an "Entrada" of q afterwards restores the tables, also when the subtraction wrapped around |
| `Stock.NegativeSalidaCanWrap` | Controllers/MovimientoController.cs:120-148 | the stock check passes a "Salida" of −1 from stock 2^31−1, and the subtraction wraps to −2^31 |
| `Stock.EditIsIdempotent` | Controllers/MovimientoController.cs:242-254 | applying the same edit twice gives the same tables as once |
| `Stock.DeleteTwice` | Controllers/MovimientoController.cs:277-284 | the second delete of an id returns false and changes nothing |
| `Controller.MovimientoController.constructor` | Controllers/MovimientoController.cs:15-18 | the controller starts from the given tables |
| `Controller.MovimientoController.Details` | Controllers/MovimientoController.cs:21-40 | the row is returned iff the id is non-null and present, and it is that id's row |
| `Controller.MovimientoController.CreateComponenteModal` | Controllers/MovimientoController.cs:107-166 | new tables and outcome are those of `Stock.CreateComponente` on the old tables; movements unchanged; component ids unchanged; nothing changes unless `Created` |
| `Controller.MovimientoController.Edit` | Controllers/MovimientoController.cs:215-270 | new tables and outcome are those of `Stock.EditMovimiento`; components unchanged; movement ids unchanged; nothing changes unless the edit is saved |
| `Controller.MovimientoController.Delete` | Controllers/MovimientoController.cs:275-285 | result and new tables are those of `Stock.DeleteMovimiento`; success iff present; movements become the old ones without that id; components unchanged |
| `Controller.SalidaScenario` | Controllers/MovimientoController.cs:120-153 | stock 5, "Salida" 3 → accepted, stock 2; stock 5, "Salida" 10 → refused with 5 available, stock stays 5 |

## Left out

- GET handlers `Create`, `CreateForDispositivo`, `CreateForComponente` and `Edit` (GET), because they only fill views and select lists. Their not-found checks (lines 57-61, 82-86, 171-180) are the same map lookup as `Details`.
- View rendering, `PartialView`/`Json` results, `ViewData`/`ViewBag`/`SelectList` contents and model-state error messages are left out, except the values they carry: the available stock, and the name and stock shown on an invalid form.
- Entity Framework, `async`/`await` and navigation `Include`s are left out. The tables are in-memory maps, and a save is atomic.
- A failed `SaveChangesAsync` in `CreateComponenteModal` (line 151) and in `Delete` (line 281) is left out, so the model's `Delete` always succeeds on a present id. The code catches neither; only `Edit`'s caught failure is modelled, through the `saved` flag.
- `Edit` assigns `IdDispositivo` to the tracked entity before the null check on `TipoMovimiento` throws. The model keeps only the persisted tables, which stay unchanged.
- `ModelState.IsValid` internals are left out, because the view models' validation attributes are not part of this model. Validity is an input, and no positive-quantity check is added.
- The field types of the entity classes are not part of this model. Foreign keys are `int`; `Nombre` and `Observaciones` are non-null strings.
- The component form is modelled only through the three fields the handler reads (component, type, quantity).
- `DateTime.Now` and anti-forgery token handling are left out, because they are framework and clock calls.
- Concurrent requests and lost updates are left out, because each handler is modelled as one atomic step.
- Reconciling stock against the ledger is left out, because the code does not do it. `Stock.EditAndDeleteKeepStock` and `Stock.LedgerNeverGrows` show the gap.
- `Stock.CreateKeepsStockNonNegative`: requires a non-negative quantity and no "Entrada" overflow. Without them the source does not keep stock non-negative; `Stock.NegativeSalidaCanWrap` gives the input.
