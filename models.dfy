/**
 * The records the movement controller reads and writes: components with a
 * stock counter, movement rows, and the two forms posted by the user.
 * Quantities are C# `int`, which is 32 bits wide and wraps on overflow in
 * the default unchecked context; `Int32` and `Wrap` make that explicit.
 */
module Models {

  const TwoTo31: int := 0x8000_0000
  const TwoTo32: int := 0x1_0000_0000

  /** A C# `int`. */
  newtype Int32 = x: int | -0x8000_0000 <= x < 0x8000_0000

  predicate InInt32Range(x: int) {
    -TwoTo31 <= x < TwoTo31
  }

  /** Unchecked 32-bit two's-complement truncation of a mathematical integer. */
  function Wrap(x: int): (r: Int32)
    ensures InInt32Range(x) ==> r as int == x
    ensures (r as int - x) % TwoTo32 == 0
  {
    ((x + TwoTo31) % TwoTo32 - TwoTo31) as Int32
  }

  datatype Option<+T> = None | Some(value: T)

  /** A row of the Componentes table: its display name and current stock. */
  datatype Componente = Componente(nombre: string, cantidad: Int32)

  /**
   * A row of the Movimientos table, without its key IdMovimiento.
   * IdDispositivo, IdUbicacion and IdResponsable are foreign keys; Fecha is a
   * timestamp given in ticks.
   */
  datatype Movimiento = Movimiento(
    idDispositivo: int,
    tipoMovimiento: string,
    cantidad: Int32,
    idUbicacion: int,
    idResponsable: int,
    observaciones: string,
    fecha: int)

  /** The fields of the component movement form that the handler reads. */
  datatype ComponenteForm = ComponenteForm(
    idComponente: int,
    tipoMovimiento: string,
    cantidad: Int32)

  /** The movement edit form; a TipoMovimiento left empty arrives as null. */
  datatype MovimientoEditForm = MovimientoEditForm(
    idMovimiento: int,
    idDispositivo: int,
    tipoMovimiento: Option<string>,
    cantidad: Int32,
    idUbicacion: int,
    idResponsable: int,
    observaciones: string,
    fecha: int)

  /** The two tables the controller works on. */
  datatype Tables = Tables(
    componentes: map<int, Componente>,
    movimientos: map<int, Movimiento>)
}
