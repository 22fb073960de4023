/**
 * The two Mongoose schemas of the finance API, Categoria and Transaccion,
 * as datatypes, together with the validation and the defaults that the
 * schema applies when a new document is built and saved.
 *
 * Documents are identified by `Id` (an ObjectId in the database); users
 * are identified by the same kind of id. `tipo` stays a string, as in the
 * schema, so that the `enum: ['ingreso', 'egreso']` constraint is a
 * predicate that validation checks and the store keeps as an invariant.
 */
module Modelos {

  datatype Option<T> = None | Some(value: T)

  function GetOr<T>(o: Option<T>, default: T): T
  {
    match o
    case Some(v) => v
    case None => default
  }

  /** The outcome of a route handler, with the HTTP error folded into a tag:
      404 is NotFound, 401 Unauthorized, 400 BadRequest and 500 Failure. */
  datatype Error = NotFound | Unauthorized | BadRequest | Failure

  datatype Result<T> = Ok(value: T) | Err(error: Error)

  type Id = nat

  const INGRESO: string := "ingreso"
  const EGRESO: string := "egreso"

  /** The schema's `enum` for `tipo`, on both models. */
  predicate TipoValido(t: string)
  {
    t == INGRESO || t == EGRESO
  }

  // ---------------------------------------------------------------------
  // models/Categoria.js
  // ---------------------------------------------------------------------

  datatype Categoria = Categoria(
    nombre: string,
    tipo: string,
    usuario: Id,
    isDefault: bool,
    orden: int,
    isVisible: bool)

  /** What the schema validators accept: a non-empty `nombre` (Mongoose's
      `required` refuses the empty string) and a `tipo` from the enum.
      `usuario` is required too; the datatype always carries one. */
  predicate CategoriaValida(c: Categoria)
  {
    c.nombre != "" && TipoValido(c.tipo)
  }

  /** `new Categoria({...})` followed by validation: None is a
      ValidationError. Fields the caller leaves out take the schema's
      defaults: isDefault false, orden 0, isVisible true. */
  function NuevaCategoria(nombre: Option<string>, tipo: Option<string>, usuario: Id,
                          isDefault: Option<bool>, orden: Option<int>): (r: Option<Categoria>)
    ensures r.Some? <==> nombre.Some? && nombre.value != "" && tipo.Some? && TipoValido(tipo.value)
    ensures r.Some? ==> CategoriaValida(r.value) && r.value.usuario == usuario && r.value.isVisible
    ensures r.Some? ==> r.value.nombre == nombre.value && r.value.tipo == tipo.value
    ensures r.Some? && isDefault.Some? ==> r.value.isDefault == isDefault.value
    ensures r.Some? && orden.Some? ==> r.value.orden == orden.value
    ensures r.Some? && isDefault.None? ==> !r.value.isDefault
    ensures r.Some? && orden.None? ==> r.value.orden == 0
  {
    if nombre.Some? && nombre.value != "" && tipo.Some? && TipoValido(tipo.value) then
      Some(Categoria(nombre.value, tipo.value, usuario, GetOr(isDefault, false), GetOr(orden, 0), true))
    else
      None
  }

  // ---------------------------------------------------------------------
  // models/Transaccion.js
  // ---------------------------------------------------------------------

  /** `monto` is a JavaScript number in the source; here an integer.
      `fecha` is a point in time in milliseconds. */
  datatype Transaccion = Transaccion(
    fecha: int,
    monto: int,
    descripcion: Option<string>,
    tipo: string,
    categoria: Id,
    usuario: Id)

  predicate TransaccionValida(t: Transaccion)
  {
    TipoValido(t.tipo)
  }

  /** The fields a request body may carry for a transaction; None is a
      field the body leaves out. */
  datatype CamposTransaccion = CamposTransaccion(
    fecha: Option<int>,
    monto: Option<int>,
    descripcion: Option<string>,
    tipo: Option<string>,
    categoria: Option<Id>,
    usuario: Option<Id>)

  /** `new Transaccion({...})` followed by validation, `ahora` standing for
      `Date.now` at creation. monto, tipo, categoria and usuario are
      required; fecha defaults to `ahora`; descripcion is optional. */
  function NuevaTransaccion(c: CamposTransaccion, ahora: int): (r: Option<Transaccion>)
    ensures r.Some? <==> c.monto.Some? && c.tipo.Some? && TipoValido(c.tipo.value)
                         && c.categoria.Some? && c.usuario.Some?
    ensures r.Some? ==> TransaccionValida(r.value)
    ensures r.Some? ==> r.value.usuario == c.usuario.value && r.value.categoria == c.categoria.value
                        && r.value.monto == c.monto.value && r.value.descripcion == c.descripcion
                        && r.value.tipo == c.tipo.value
    ensures r.Some? && c.fecha.None? ==> r.value.fecha == ahora
    ensures r.Some? && c.fecha.Some? ==> r.value.fecha == c.fecha.value
  {
    if c.monto.Some? && c.tipo.Some? && TipoValido(c.tipo.value) && c.categoria.Some? && c.usuario.Some? then
      Some(Transaccion(GetOr(c.fecha, ahora), c.monto.value, c.descripcion, c.tipo.value,
                       c.categoria.value, c.usuario.value))
    else
      None
  }

  /** A category built without isDefault, orden or isVisible takes the
      schema defaults. */
  lemma DefaultsDeCategoria(nombre: string, tipo: string, usuario: Id)
    requires nombre != "" && TipoValido(tipo)
    ensures NuevaCategoria(Some(nombre), Some(tipo), usuario, None, None)
            == Some(Categoria(nombre, tipo, usuario, false, 0, true))
  {
  }
}
