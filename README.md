# finanzasimple-back, modelled in Dafny

This project models the core of finanzasimple-back, an Express/Mongoose API for personal finances. Users keep
income (`ingreso`) and expense (`egreso`) categories and book transactions against them. The model covers:

- **The two schemas** (`modelos.dfy`): `Categoria` and `Transaccion` as datatypes. The validators and defaults
  are applied when a document is built, and the `tipo` enum is a predicate.
- **The default catalog** (`catalogo.dfy`): four income entries and eight expense entries, each with a name, a
  type and an order.
- **The pure parts of the category routes** (`categorias.js` → `categorias.dfy`):
  - the `(nombre, usuario)` lookups behind the unique index and the duplicate checks;
  - the fallback lookup `getDefaultCategoryId`;
  - the field merge of PUT;
  - the bulk rewrite of transactions (`updateMany`) that DELETE performs.
- **The transaction list** (`transacciones.dfy`): the filter GET builds from `startDate`, `endDate` and `tipo`,
  and the descending sort on `fecha`, as a loop that inserts into a sorted list. Also the field-by-field update
  of PUT.
- **`generarPassword`** (`password.dfy`): a loop that appends characters, followed by a shuffle. Each random
  index is a parameter. The shuffle is a list of choices that can produce any permutation.
- **Seeding** (`siembra.dfy`, `api.dfy`): `crearCategoriasDefault` is specified by `Sembrado`. This function
  describes saving the entries one after the other under the unique index. Lemmas state what a whole seeding
  leaves behind.
- **The database** (`api.dfy`): class `Almacen` holds the category, transaction and user collections as maps,
  plus the fresh-id counter. Each route handler is a method on it, with the authenticated user id as a
  parameter. `Valid()` is the invariant that the schemas, the unique indexes and the handlers keep together.
- **Scenarios** (`escenarios.dfy`): end-to-end scenarios whose ensures state the replies, each starting from
  an empty database. A user is seeded, creates "Gym", books three expenses against it, and then deletes or
  renames categories.

Errors are tags: 404 is `NotFound`, 401 is `Unauthorized`, 400 is `BadRequest` and 500 is `Failure`.

The model follows the code in these places:

- The `updateMany` of DELETE filters on the category id only, not on the user (routes/categorias.js:155-158).
- No handler creates a missing fallback category; deletion fails with 500 when the fallback is missing
  (routes/categorias.js:116-118).
- `crearCategoriasDefault` is not called from registration (routes/auth.js:47-83), so `Registrar` does not seed.
- PUT on a transaction replaces any field the body gives, `usuario` included (routes/transacciones.js:94-101).

## Model

| member | source | states |
|---|---|---|
| Modelos.NuevaCategoria | models/Categoria.js:4-30 | A category document exists exactly when `nombre` is given and non-empty and `tipo` is in the enum. It carries the given fields, `usuario` is the owner, and omitted fields take the defaults: isDefault false, orden 0, isVisible true. |
| Modelos.DefaultsDeCategoria | models/Categoria.js:19-30 | A category built from name, type and owner only is `(nombre, tipo, usuario, false, 0, true)`. |
| Modelos.NuevaTransaccion | models/Transaccion.js:4-35 | A transaction document exists exactly when monto, an enum `tipo`, categoria and usuario are given. `fecha` defaults to the creation time, `descripcion` may be absent, and the given fields are kept. |
| Categorias.ObtenerDefaultId | routes/categorias.js:106-121 | The fallback id is found exactly when the user has a default category named "✨ Otros Ingresos" (for `ingreso`) or "📝 Otros Gastos" (otherwise), of that type. Under the unique index that category is the one returned. |
| Categorias.Fusionar | routes/categorias.js:83-87 | The PUT merge. A given non-empty `nombre` or `tipo` is written; an omitted or empty one keeps the old value. A given `orden` is written, 0 included; an omitted one keeps the old value. usuario, isDefault and isVisible never change. |
| Categorias.FusionarAdmiteTipoInvalido | routes/categorias.js:83-93 | As written, the merge turns a valid category into one whose `tipo` is outside the enum; no validator runs. |
| Categorias.Reasignar | routes/categorias.js:155-158 | The `updateMany` rewrite: every transaction that referenced the deleted category now references the fallback, every other transaction is unchanged, and none is added or dropped. |
| Categorias.ReasignarEfecto | routes/categorias.js:155-158 | After the rewrite, every former reference to the deleted category points at the fallback. Nothing references the deleted category, and each transaction differs at most in its category. |
| Categorias.Modificados | routes/categorias.js:163 | `modifiedCount`: a document is counted exactly when it is present before and after and its content changed; an update that changes nothing counts none. |
| Categorias.ReasignarCuenta | routes/categorias.js:155-163 | `modifiedCount` is exactly the set of transactions that referenced the deleted category. |
| Categorias.ReasignarSuma | routes/categorias.js:155-158 | The fallback's references after the rewrite are its old ones plus those of the deleted category; the counts add up. |
| Categorias.ReasignarConservaIntegridad | routes/categorias.js:155-160 | Rewriting to an existing category, then removing the old one, keeps every reference resolvable. |
| Catalogo.IngresosNumerados | utils/categoriasDefault.js:2-7 | There are 4 income entries, all of type `ingreso`, with orden 1 to 4 in order. |
| Catalogo.EgresosNumerados | utils/categoriasDefault.js:8-17 | There are 8 expense entries, all of type `egreso`, with orden 1 to 8 in order. |
| Catalogo.CatalogoValido | utils/categoriasDefault.js:1-18 | The catalog has 12 entries, each with a non-empty name and a type in the enum. |
| Catalogo.InicialesDelCatalogo | utils/categoriasDefault.js:3-16 | Each catalog name begins with its own emoji, and the twelve emoji are listed in catalog order. |
| Catalogo.NombresDistintos | utils/categoriasDefault.js:3-16 | The twelve names are pairwise distinct. |
| Catalogo.CatalogoTieneFallbacks | utils/categoriasDefault.js:6-16 | Entry 3 is ("✨ Otros Ingresos", ingreso, 4) and entry 11 is ("📝 Otros Gastos", egreso, 8). For each valid type, the catalog holds the name the fallback lookup searches for, with that type. |
| Transacciones.Coincide | routes/transacciones.js:18-40 | The query GET builds keeps only the caller's transactions; with no `startDate`, `endDate` or `tipo` it keeps all of them. |
| Transacciones.FiltroPorDias | routes/transacciones.js:18-40 | The query keeps a transaction exactly when it is the caller's, its day is between the days of `startDate` and `endDate` inclusive (an absent bound imposes nothing), and its `tipo` matches when a `tipo` is given. |
| Transacciones.InsertarPorFecha | routes/transacciones.js:44 | Inserting into a list sorted newest first keeps it sorted and adds exactly that id. |
| Transacciones.InsercionOrdenada | routes/transacciones.js:44 | Inserting after every entry that is not older, and before the first older one, keeps the list sorted. |
| Transacciones.InsercionCuenta | routes/transacciones.js:44 | The inserted list holds the old ids plus the new one. |
| Transacciones.Listar | routes/transacciones.js:13-49 | GET returns each matching transaction exactly once and nothing else, sorted by `fecha`, newest first. |
| Transacciones.AplicarCampos | routes/transacciones.js:94-101 | PUT writes every field the body gives and keeps every field it leaves out; an empty body changes nothing. An update that passes the validators keeps a valid transaction valid. |
| Password.Mezclar | routes/auth.js:43 | The shuffle keeps the length and the multiset of characters. |
| Password.SinMezclar | routes/auth.js:28-40 | Before the shuffle the password has the three guaranteed characters plus one per drawn index: first a digit, then an upper-case letter, then a symbol. |
| Password.SinMezclarPaso | routes/auth.js:38-40 | Drawing one more character appends `caracteres[i]` to the password. |
| Password.ReordenacionConservaClases | routes/auth.js:29-43 | Any reordering of the unshuffled password still contains a digit, an upper-case letter and a symbol. |
| Password.SinMezclarEnAlfabeto | routes/auth.js:25-40 | Every character before the shuffle, the three guaranteed ones included, is in `caracteres`. |
| Password.ReordenacionEnAlfabeto | routes/auth.js:43 | A reordering draws only on the characters it reorders. |
| Password.GenerarPassword | routes/auth.js:23-44 | The password has 12 characters, all in `caracteres`. It contains at least one digit, one upper-case letter and one symbol, and it is a permutation of the three guaranteed characters and the nine drawn. |
| Siembra.CatalogoAceptable | utils/categoriasDefault.js:1-18 | The catalog can be seeded: its names are distinct and non-empty, and its types are valid. |
| Siembra.SiembraPaso | utils/crearCategoriasDefault.js:14-21 | While seeding, the next name is taken now exactly when it was taken before seeding began. Saving or skipping that entry extends the seeding by one. |
| Siembra.SembradoPaso | utils/crearCategoriasDefault.js:14-21 | One more save of the sequential seeding: the store is extended, and it has failed exactly when it had failed before or this name was taken. |
| Siembra.SembradoCumple | utils/crearCategoriasDefault.js:14-23 | Seeding keeps the old categories (other users' included) and adds only ids `n0 + j`. Entry `j` is saved, as that entry with isDefault true and the user as owner, exactly when its name was free before seeding. The seeding succeeds exactly when all names were free. |
| Siembra.SiembraOcupaTodos | utils/crearCategoriasDefault.js:14-23 | After seeding, the user holds every catalog name. |
| Siembra.SiembraRepetidaNoCambia | utils/crearCategoriasDefault.js:14-27 | Seeding a user who already holds every name leaves the store as it was. |
| Siembra.SiembraCompletaCuenta | utils/crearCategoriasDefault.js:8-23 | A seeding that finds no name taken adds exactly one category per entry. |
| Siembra.SiembraCompletaFallbacks | utils/crearCategoriasDefault.js:8-23 | After such a full seeding of the catalog, the fallback lookup succeeds for both types. |
| Api.Almacen.GuardarCategoria | models/Categoria.js:35-36 | `save()` takes a fresh id. It stores the category exactly when the user does not already hold the name; otherwise it fails and leaves the store unchanged. |
| Api.Almacen.CrearCategoria | routes/categorias.js:28-51 | If the caller already uses the name, whatever its type, the result is BadRequest and nothing is stored. A body the schema refuses is a Failure. Otherwise exactly one new category is stored: the caller's, with the given name, type and orden, isDefault false and visible. |
| Api.Almacen.ActualizarCategoria | routes/categorias.js:57-99 | As intended; see ## Findings. An unknown id is NotFound and another user's category is Unauthorized, with the store unchanged. A new name held by another of the caller's categories is BadRequest. A merged `tipo` outside the enum is Failure. Otherwise only that category changes, to the merge. |
| Api.Almacen.ReasignarTransacciones | routes/categorias.js:155-158 | Transactions become the rewrite; the returned count is the number that referenced the deleted category. Integrity is kept when the target exists. |
| Api.Almacen.BorrarCategoria | routes/categorias.js:160 | Exactly that category is removed. References stay resolvable when none pointed at it. |
| Api.Almacen.EliminarCategoria | routes/categorias.js:131-168 | As intended; see ## Findings. NotFound, Unauthorized, BadRequest for a default category, Failure without a fallback; in each case nothing changes. Otherwise the transactions are rewritten to the fallback and then the category is removed. The reply is the number rewritten, and references stay resolvable. |
| Api.Almacen.EliminarCategoriaTalComoEsta | routes/categorias.js:131-168 | As written: the same three guards, then 500 for every delete that passes them. |
| Api.Almacen.CambiarVisibilidad | routes/categorias.js:174-208 | A non-boolean is BadRequest. A category that is not the caller's is NotFound. Hiding a default category is BadRequest. Otherwise only `isVisible` changes, and showing a default is allowed. |
| Api.Almacen.Sembrar | utils/crearCategoriasDefault.js:5-28 | The new category store and the outcome are the sequential seeding `Sembrado` of the entries. Each entry takes a fresh id; transactions and users are unchanged; a failure is reported as Failure. |
| Api.Almacen.CrearCategoriasDefault | utils/crearCategoriasDefault.js:8-23 | The same, for the catalog's income entries followed by its expense entries. |
| Api.Almacen.CrearTransaccion | routes/transacciones.js:60-71 | The body is stored under a fresh id with `usuario` overwritten by the caller. A body the schema refuses is BadRequest and stores nothing. |
| Api.Almacen.ObtenerTransaccion | routes/transacciones.js:74-89 | It succeeds exactly when the id exists and belongs to the caller, and then returns that document; otherwise NotFound. |
| Api.Almacen.ActualizarTransaccion | routes/transacciones.js:92-111 | An out-of-enum `tipo` is BadRequest. A miss on (id, caller) is NotFound. Otherwise only that transaction changes, to the body's fields over the old ones. |
| Api.Almacen.EliminarTransaccion | routes/transacciones.js:114-129 | It succeeds exactly on a hit on (id, caller), and then removes only that transaction; a miss is NotFound and changes nothing. |
| Api.Almacen.Registrar | routes/auth.js:47-83 | An email already registered is BadRequest and creates no user. An empty email is refused by the user schema's `required` when saved: Failure, and no user is created. Otherwise exactly one user is added, with a 12-character password from `caracteres` that has a digit, an upper-case letter and a symbol. |
| Escenarios.TiendaSembrada | utils/crearCategoriasDefault.js:5-28 | Seeding user 1 in an empty store succeeds. Ids 0 to 11 then hold the catalog in order, as default categories of user 1, and nothing else is stored. |
| Escenarios.SembrarDosVeces | utils/crearCategoriasDefault.js:14-27 | Seeding the same user a second time fails and the store keeps its 12 categories. |
| Escenarios.CrearGym | routes/categorias.js:28-47 | In the seeded store, POST "Gym" adds exactly one non-default, visible category of user 1. |
| Escenarios.TiendaConGym | routes/transacciones.js:60-67 | Three POSTs against "Gym" leave three transactions referencing it. |
| Escenarios.BorrarGym | routes/categorias.js:131-164 | As written, deleting "Gym" answers 500. Deleting the fallback is BadRequest. As intended, deleting "Gym" answers a count of 3. |
| Escenarios.RenombrarGymAUnNombreOcupado | routes/categorias.js:70-80 | Renaming "Gym" to a catalog name of the same user is BadRequest. |
| Escenarios.CambiarTipoDeGymAInvalido | routes/categorias.js:83-93 | With validation, a type outside the enum is refused (Failure). |
| Escenarios.RenombrarGym | routes/categorias.js:83-95 | Renaming with an empty `tipo` keeps the type, the order and the flags. |
| Escenarios.ListarDesdeElDiaUno | routes/transacciones.js:23-44 | `startDate` in the middle of a day still returns an expense from earlier that day. An earlier day's expense and an income are excluded. |
| Escenarios.ActualizarConTipoInvalido | routes/transacciones.js:94-109 | A PUT with a `tipo` outside the enum answers BadRequest even when the id does not exist. |

## Left out

- JWT issuing and checking (routes/auth.js:16-20, middleware/auth.js): the authenticated user id is a parameter of each handler.
- Login, bcrypt hashing and comparison (routes/auth.js:86-113, models/Usuario.js): foreign cryptography. A user is an id and an email; the password is returned, not stored.
- The admin-code check, rate limiting, CORS, the database connection and the server wiring: configuration and I/O.
- GET /api/categorias (routes/categorias.js:10-19): it only lists the caller's categories, and its order uses `createdAt` timestamps that the store assigns.
- The express-validator `check` calls (routes/categorias.js:24-25): their results are never read.
- Database and network failures: a save fails in the model only through validation or the unique index.
- Invalid ObjectId strings (CastError): ids are natural numbers, so every id is well formed.
- Api.Almacen.Registrar: the user schema's `trim` and `lowercase` on `email` are not applied, so emails are compared as given, and an email of only spaces (which `trim` would empty and `required` would refuse) is registered.
- `Math.random`: each draw is an index parameter. The random-comparator sort is an arbitrary permutation given by a choice list; its real distribution is not modelled.
- ISO 8601 parsing and date-fns' local-time `startOfDay`/`endOfDay`: times are integers in milliseconds, and days are cut in UTC.
- `monto` is an integer, not a JavaScript float.
- Transacciones.Listar: ties on `fecha` come back in an unspecified order, as the database returns them; the populated category name is not modelled.
- Api.Almacen.Sembrar: `Promise.all` runs the twelve saves concurrently. The model runs them in catalog order and lets every save finish. The end state agrees, since the entries' names are distinct and no save depends on another. The model does not capture that the caller may see the rejection before the last saves land.
- Api.Almacen.CrearCategoria: a body without `nombre` is a Failure. The lookup then searches for a null name, which no stored category has.
- Concurrent requests: each handler runs atomically. POST's `findOne` and `save` (routes/categorias.js:29-46), and DELETE's guards and its `updateMany` (routes/categorias.js:132-160), cannot interleave with another request; a race between them is not captured.
- Referential integrity of new transactions: creation does not check that `categoria` exists (nor does the source). `Integridad` is therefore a property that deletion preserves, not a store invariant.

## Findings

| source | as written | input that shows it | evidently intended | confidence | as-written member | corrected member |
|---|---|---|---|---|---|---|
| routes/categorias.js:149-158 | After the guards, the handler reads `categoriaAEliminar.tipo`, a name defined nowhere, and then calls `Transaccion.updateMany`, but `Transaccion` is never imported (lines 2-5). The ReferenceError lands in the catch, so every delete of a non-default category of the caller answers 500 and changes nothing. | User 1 deletes their own non-default category "Gym", which has three transactions (Escenarios.BorrarGym) | Look up the fallback with the loaded category's `tipo`, move its transactions there, remove it, and report the count (3) | high, not executed | Api.Almacen.EliminarCategoriaTalComoEsta | Api.Almacen.EliminarCategoria |
| routes/categorias.js:83-93 | PUT merges `tipo: req.body.tipo \|\| categoria.tipo` and calls `findByIdAndUpdate` without `runValidators`, so a type outside the schema's enum is stored. | PUT on "Gym" (egreso) with body `{ tipo: "gasto" }` | Reject it, as the schema's `enum` on `tipo` requires (ValidationError, 500) | medium, not executed | Categorias.FusionarAdmiteTipoInvalido | Api.Almacen.ActualizarCategoria |
