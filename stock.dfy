/**
 * The behaviour of the movement controller's handlers, stated as functions
 * from the tables before a request to the handler's outcome and the tables
 * after it, together with the properties of those functions.
 */
module Stock {
  import opened Models

  /** An outcome paired with the tables as they are after the request. */
  datatype Step<R> = Step(result: R, tables: Tables)

  /** What CreateComponenteModal answers. */
  datatype CreateOutcome =
    | Created                                             // Json { success = true }
    | InvalidForm(componenteNombre: string, stockActual: Int32)
    | ComponenteMissing                                   // "El componente no existe."
    | InsufficientStock(nombre: string, disponible: Int32)  // "Stock insuficiente. Disponible: ..."

  /** What the Edit POST handler answers. */
  datatype EditOutcome =
    | EditNotFound
    | EditInvalid        // the form is shown again
    | EditTipoNull       // ArgumentNullException for TipoMovimiento
    | EditSaved          // Json { success = true }
    | EditSaveFailed     // "Ocurrió un error al guardar los cambios."

  /**
   * The stock adjuster: the new stock of a component after a movement of
   * kind `tipo` and size `cantidad`, or the available stock when a "Salida"
   * asks for more than there is.
   */
  function AdjustStock(stock: Int32, tipo: string, cantidad: Int32): (r: Option<Int32>)
    ensures r.None? <==> tipo == "Salida" && stock < cantidad
    ensures tipo == "Entrada" && InInt32Range(stock as int + cantidad as int) ==>
              r == Some((stock as int + cantidad as int) as Int32)
    ensures tipo == "Entrada" ==> r.Some? && (r.value as int - stock as int - cantidad as int) % TwoTo32 == 0
    ensures tipo == "Salida" && r.Some? ==> (r.value as int - stock as int + cantidad as int) % TwoTo32 == 0
    ensures tipo == "Salida" && r.Some? && InInt32Range(stock as int - cantidad as int) ==>
              r.value as int == stock as int - cantidad as int && 0 <= r.value
    ensures tipo == "Salida" && r.Some? && 0 <= cantidad ==> InInt32Range(stock as int - cantidad as int)
    ensures tipo != "Entrada" && tipo != "Salida" ==> r == Some(stock)
  {
    if tipo == "Salida" && stock < cantidad then None
    else if tipo == "Entrada" then Some(Wrap(stock as int + cantidad as int))
    else if tipo == "Salida" then Some(Wrap(stock as int - cantidad as int))
    else Some(stock)
  }

  /** CreateComponenteModal: check and adjust the stock of one component. */
  function CreateComponente(t: Tables, valid: bool, form: ComponenteForm): (s: Step<CreateOutcome>)
    // a movement row is never inserted
    ensures s.tables.movimientos == t.movimientos
    // only the targeted component can change, and only its stock
    ensures s.tables.componentes.Keys == t.componentes.Keys
    ensures forall id :: id in t.componentes && id != form.idComponente ==>
              s.tables.componentes[id] == t.componentes[id]
    ensures form.idComponente in t.componentes ==>
              s.tables.componentes[form.idComponente].nombre == t.componentes[form.idComponente].nombre
    // an invalid form changes nothing and shows the component, or "Desconocido" and 0
    ensures !valid ==> s.tables == t && s.result.InvalidForm?
    ensures !valid && form.idComponente in t.componentes ==>
              s.result == InvalidForm(t.componentes[form.idComponente].nombre, t.componentes[form.idComponente].cantidad)
    ensures !valid && form.idComponente !in t.componentes ==> s.result == InvalidForm("Desconocido", 0)
    // an unknown component is an error and changes nothing
    ensures valid && form.idComponente !in t.componentes ==> s == Step(ComponenteMissing, t)
    // an over-large "Salida" is refused, reports the stock, and changes nothing
    ensures s.result.InsufficientStock? <==>
              valid && form.idComponente in t.componentes && form.tipoMovimiento == "Salida" &&
              t.componentes[form.idComponente].cantidad < form.cantidad
    ensures s.result.InsufficientStock? ==>
              s.tables == t && s.result.disponible == t.componentes[form.idComponente].cantidad &&
              s.result.nombre == t.componentes[form.idComponente].nombre
    // otherwise the stock becomes what the stock adjuster says
    ensures s.result == Created <==> valid && form.idComponente in t.componentes && !s.result.InsufficientStock?
    ensures s.result == Created ==>
              Some(s.tables.componentes[form.idComponente].cantidad) ==
              AdjustStock(t.componentes[form.idComponente].cantidad, form.tipoMovimiento, form.cantidad)
  {
    var id := form.idComponente;
    if !valid then
      if id in t.componentes then
        Step(InvalidForm(t.componentes[id].nombre, t.componentes[id].cantidad), t)
      else
        Step(InvalidForm("Desconocido", 0), t)
    else if id !in t.componentes then
      Step(ComponenteMissing, t)
    else
      var c := t.componentes[id];
      match AdjustStock(c.cantidad, form.tipoMovimiento, form.cantidad)
      case None => Step(InsufficientStock(c.nombre, c.cantidad), t)
      case Some(stock) =>
        Step(Created, t.(componentes := t.componentes[id := c.(cantidad := stock)]))
  }

  /** The movement row an edit form describes. */
  function Edited(form: MovimientoEditForm): (m: Movimiento)
    requires form.tipoMovimiento.Some?
    ensures m.idDispositivo == form.idDispositivo && m.tipoMovimiento == form.tipoMovimiento.value
    ensures m.cantidad == form.cantidad && m.idUbicacion == form.idUbicacion
    ensures m.idResponsable == form.idResponsable && m.observaciones == form.observaciones
    ensures m.fecha == form.fecha
  {
    Movimiento(form.idDispositivo, form.tipoMovimiento.value, form.cantidad,
               form.idUbicacion, form.idResponsable, form.observaciones, form.fecha)
  }

  /** The Edit POST handler; `saved` says whether persisting succeeded. */
  function EditMovimiento(t: Tables, valid: bool, saved: bool, form: MovimientoEditForm): (s: Step<EditOutcome>)
    // component stock is never touched, and no row is added or removed
    ensures s.tables.componentes == t.componentes
    ensures s.tables.movimientos.Keys == t.movimientos.Keys
    // the order of the checks
    ensures form.idMovimiento <= 0 ==> s.result == EditNotFound
    ensures 0 < form.idMovimiento && !valid ==> s.result == EditInvalid
    ensures 0 < form.idMovimiento && valid && form.idMovimiento !in t.movimientos ==> s.result == EditNotFound
    ensures 0 < form.idMovimiento && valid && form.idMovimiento in t.movimientos && form.tipoMovimiento.None? ==>
              s.result == EditTipoNull
    ensures s.result == EditSaveFailed <==>
              0 < form.idMovimiento && valid && form.idMovimiento in t.movimientos &&
              form.tipoMovimiento.Some? && !saved
    // only a saved edit changes anything
    ensures s.result != EditSaved ==> s.tables == t
    ensures s.result == EditSaved <==>
              0 < form.idMovimiento && valid && form.idMovimiento in t.movimientos &&
              form.tipoMovimiento.Some? && saved
    // and it overwrites exactly the edited row with the form's seven fields
    ensures s.result == EditSaved ==>
              s.tables.movimientos[form.idMovimiento] == Edited(form) &&
              forall id :: id in t.movimientos && id != form.idMovimiento ==>
                s.tables.movimientos[id] == t.movimientos[id]
  {
    var id := form.idMovimiento;
    if id <= 0 then Step(EditNotFound, t)
    else if !valid then Step(EditInvalid, t)
    else if id !in t.movimientos then Step(EditNotFound, t)
    else if form.tipoMovimiento.None? then Step(EditTipoNull, t)
    else if !saved then Step(EditSaveFailed, t)
    else Step(EditSaved, t.(movimientos := t.movimientos[id := Edited(form)]))
  }

  /** The Delete handler: its answer is Json { success }. */
  function DeleteMovimiento(t: Tables, id: int): (s: Step<bool>)
    ensures s.result <==> id in t.movimientos
    ensures s.tables.componentes == t.componentes
    ensures id !in s.tables.movimientos
    ensures s.tables.movimientos.Keys == t.movimientos.Keys - {id}
    ensures forall k :: k in s.tables.movimientos ==> s.tables.movimientos[k] == t.movimientos[k]
    ensures !s.result ==> s.tables == t
  {
    if id in t.movimientos then Step(true, t.(movimientos := t.movimientos - {id}))
    else Step(false, t)
  }

  // ---------------------------------------------------------------------------
  // Runs of requests

  /** A request to one of the state-changing handlers. */
  datatype Request =
    | CreateComponenteRequest(valid: bool, form: ComponenteForm)
    | EditRequest(valid: bool, saved: bool, editForm: MovimientoEditForm)
    | DeleteRequest(id: int)

  function Serve(t: Tables, req: Request): Tables {
    match req
    case CreateComponenteRequest(valid, form) => CreateComponente(t, valid, form).tables
    case EditRequest(valid, saved, form) => EditMovimiento(t, valid, saved, form).tables
    case DeleteRequest(id) => DeleteMovimiento(t, id).tables
  }

  /** The tables after serving the requests one after another. */
  function Run(t: Tables, reqs: seq<Request>): Tables
    decreases |reqs|
  {
    if reqs == [] then t else Run(Serve(t, reqs[0]), reqs[1..])
  }

  /** No handler ever inserts a movement row: the ledger only shrinks. */
  lemma {:induction false} LedgerNeverGrows(t: Tables, reqs: seq<Request>)
    ensures Run(t, reqs).movimientos.Keys <= t.movimientos.Keys
    decreases |reqs|
  {
    if reqs != [] {
      LedgerNeverGrows(Serve(t, reqs[0]), reqs[1..]);
    }
  }

  /** No handler adds or removes a component. */
  lemma {:induction false} ComponentsStayTheSame(t: Tables, reqs: seq<Request>)
    ensures Run(t, reqs).componentes.Keys == t.componentes.Keys
    decreases |reqs|
  {
    if reqs != [] {
      ComponentsStayTheSame(Serve(t, reqs[0]), reqs[1..]);
    }
  }

  /**
   * Editing and deleting movements never touches stock, so after any run of
   * them the stock counters are those from before, whatever the ledger now
   * says.
   */
  lemma {:induction false} EditAndDeleteKeepStock(t: Tables, reqs: seq<Request>)
    requires forall i :: 0 <= i < |reqs| ==> !reqs[i].CreateComponenteRequest?
    ensures Run(t, reqs).componentes == t.componentes
    decreases |reqs|
  {
    if reqs != [] {
      EditAndDeleteKeepStock(Serve(t, reqs[0]), reqs[1..]);
    }
  }

  /** Stock requests alone never touch the ledger. */
  lemma {:induction false} CreatesKeepLedger(t: Tables, reqs: seq<Request>)
    requires forall i :: 0 <= i < |reqs| ==> reqs[i].CreateComponenteRequest?
    ensures Run(t, reqs).movimientos == t.movimientos
    decreases |reqs|
  {
    if reqs != [] {
      CreatesKeepLedger(Serve(t, reqs[0]), reqs[1..]);
    }
  }

  predicate StockNonNegative(t: Tables) {
    forall id :: id in t.componentes ==> 0 <= t.componentes[id].cantidad
  }

  /**
   * A movement of non-negative size keeps every stock non-negative, unless an
   * "Entrada" overflows the 32-bit counter.
   */
  lemma CreateKeepsStockNonNegative(t: Tables, valid: bool, form: ComponenteForm)
    requires StockNonNegative(t)
    requires 0 <= form.cantidad
    requires form.tipoMovimiento == "Entrada" && form.idComponente in t.componentes ==>
               InInt32Range(t.componentes[form.idComponente].cantidad as int + form.cantidad as int)
    ensures StockNonNegative(CreateComponente(t, valid, form).tables)
  {
  }

  /** A "Salida" undoes an "Entrada" of the same size. */
  lemma EntradaThenSalidaRestores(t: Tables, id: int, cantidad: Int32)
    requires id in t.componentes && 0 <= t.componentes[id].cantidad
    requires InInt32Range(t.componentes[id].cantidad as int + cantidad as int)
    ensures var s1 := CreateComponente(t, true, ComponenteForm(id, "Entrada", cantidad));
            var s2 := CreateComponente(s1.tables, true, ComponenteForm(id, "Salida", cantidad));
            s1.result == Created && s2.result == Created && s2.tables == t
  {
  }

  /**
   * An "Entrada" undoes an accepted "Salida" of the same size, also when the
   * subtraction wrapped around.
   */
  lemma SalidaThenEntradaRestores(t: Tables, id: int, cantidad: Int32)
    requires id in t.componentes && cantidad <= t.componentes[id].cantidad
    ensures var s1 := CreateComponente(t, true, ComponenteForm(id, "Salida", cantidad));
            var s2 := CreateComponente(s1.tables, true, ComponenteForm(id, "Entrada", cantidad));
            s1.result == Created && s2.result == Created && s2.tables == t
  {
  }

  /**
   * The check `Cantidad < quantity` lets through a negative quantity, and the
   * subtraction then wraps: a "Salida" of -1 from the largest stock leaves the
   * smallest 32-bit value.
   */
  lemma NegativeSalidaCanWrap()
    ensures AdjustStock(0x7fff_ffff, "Salida", -1) == Some(-0x8000_0000)
  {
  }

  /** Editing with the same form twice is the same as editing once. */
  lemma EditIsIdempotent(t: Tables, valid: bool, saved: bool, form: MovimientoEditForm)
    ensures var s1 := EditMovimiento(t, valid, saved, form);
            EditMovimiento(s1.tables, valid, saved, form).tables == s1.tables
  {
  }

  /** Deleting twice: the second delete reports failure and changes nothing. */
  lemma DeleteTwice(t: Tables, id: int)
    ensures var s1 := DeleteMovimiento(t, id);
            var s2 := DeleteMovimiento(s1.tables, id);
            !s2.result && s2.tables == s1.tables
  {
  }
}
