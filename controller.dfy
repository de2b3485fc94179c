/**
 * MovimientoController over an in-memory store of two tables. Each POST
 * handler updates the fields in place the way the controller updates its
 * tracked entities, and is proved to leave the tables as the corresponding
 * function of module Stock says.
 */
module Controller {
  import opened Models
  import opened Stock

  class MovimientoController {
    var componentes: map<int, Componente>
    var movimientos: map<int, Movimiento>

    /** The tables as a value. */
    function Snapshot(): Tables
      reads this
    {
      Tables(componentes, movimientos)
    }

    constructor (componentes: map<int, Componente>, movimientos: map<int, Movimiento>)
      ensures this.componentes == componentes && this.movimientos == movimientos
    {
      this.componentes := componentes;
      this.movimientos := movimientos;
    }

    /** GET Details: a null or unknown id is NotFound, otherwise the row. */
    method Details(id: Option<int>) returns (r: Option<Movimiento>)
      ensures r.Some? <==> id.Some? && id.value in movimientos
      ensures r.Some? ==> r.value == movimientos[id.value]
    {
      if id.None? {
        return None;
      }
      if id.value !in movimientos {
        return None;
      }
      r := Some(movimientos[id.value]);
    }

    /**
     * POST CreateComponenteModal: `valid` is the form's validity. Only the
     * stock counter of the named component may change; no movement row is
     * written.
     */
    method CreateComponenteModal(valid: bool, form: ComponenteForm) returns (r: CreateOutcome)
      modifies this
      ensures Step(r, Snapshot()) == CreateComponente(old(Snapshot()), valid, form)
      ensures movimientos == old(movimientos)
      ensures componentes.Keys == old(componentes.Keys)
      ensures r != Created ==> componentes == old(componentes)
    {
      var id := form.idComponente;
      if !valid {
        var nombre: string, stock: Int32 := "Desconocido", 0;
        if id in componentes {
          nombre, stock := componentes[id].nombre, componentes[id].cantidad;
        }
        return InvalidForm(nombre, stock);
      }
      if id !in componentes {
        return ComponenteMissing;
      }
      var componente := componentes[id];
      if form.tipoMovimiento == "Salida" {
        if componente.cantidad < form.cantidad {
          return InsufficientStock(componente.nombre, componente.cantidad);
        }
      }
      if form.tipoMovimiento == "Entrada" {
        componente := componente.(cantidad := Wrap(componente.cantidad as int + form.cantidad as int));
      } else if form.tipoMovimiento == "Salida" {
        componente := componente.(cantidad := Wrap(componente.cantidad as int - form.cantidad as int));
      }
      componentes := componentes[id := componente];
      r := Created;
    }

    /**
     * POST Edit: `valid` is the form's validity and `saved` whether persisting
     * succeeded. The component table is never changed.
     */
    method Edit(valid: bool, saved: bool, form: MovimientoEditForm) returns (r: EditOutcome)
      modifies this
      ensures Step(r, Snapshot()) == EditMovimiento(old(Snapshot()), valid, saved, form)
      ensures componentes == old(componentes)
      ensures movimientos.Keys == old(movimientos.Keys)
      ensures r != EditSaved ==> movimientos == old(movimientos)
    {
      var id := form.idMovimiento;
      if id <= 0 {
        return EditNotFound;
      }
      if !valid {
        return EditInvalid;
      }
      if id !in movimientos {
        return EditNotFound;
      }
      var movimiento := movimientos[id];
      movimiento := movimiento.(idDispositivo := form.idDispositivo);
      if form.tipoMovimiento.None? {
        return EditTipoNull;
      }
      movimiento := movimiento.(tipoMovimiento := form.tipoMovimiento.value);
      movimiento := movimiento.(cantidad := form.cantidad);
      movimiento := movimiento.(idUbicacion := form.idUbicacion);
      movimiento := movimiento.(idResponsable := form.idResponsable);
      movimiento := movimiento.(observaciones := form.observaciones);
      movimiento := movimiento.(fecha := form.fecha);
      if !saved {
        return EditSaveFailed;
      }
      movimientos := movimientos[id := movimiento];
      r := EditSaved;
    }

    /** POST Delete: remove the row if it is there; report whether it was. */
    method Delete(id: int) returns (success: bool)
      modifies this
      ensures Step(success, Snapshot()) == DeleteMovimiento(old(Snapshot()), id)
      ensures success <==> id in old(movimientos)
      ensures movimientos == old(movimientos) - {id}
      ensures componentes == old(componentes)
    {
      if id in movimientos {
        movimientos := movimientos - {id};
        return true;
      }
      return false;
    }
  }

  /**
   * A client: from stock 5, a "Salida" of 3 leaves 2; from stock 5, a
   * "Salida" of 10 is refused, reporting 5 available, and the stock stays 5.
   */
  method SalidaScenario(nombre: string) returns (first: CreateOutcome, left: Int32, second: CreateOutcome, kept: Int32)
    ensures first == Created && left == 2
    ensures second == InsufficientStock(nombre, 5) && kept == 5
  {
    var c := new MovimientoController(map[1 := Componente(nombre, 5)], map[]);
    first := c.CreateComponenteModal(true, ComponenteForm(1, "Salida", 3));
    left := c.componentes[1].cantidad;
    var d := new MovimientoController(map[1 := Componente(nombre, 5)], map[]);
    second := d.CreateComponenteModal(true, ComponenteForm(1, "Salida", 10));
    kept := d.componentes[1].cantidad;
  }
}
