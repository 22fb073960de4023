/**
 * The database behind the API as one object: the `categorias`,
 * `transacciones` and `usuarios` collections as maps from document id, and
 * the source of fresh ids. Each route handler is a method on it; the
 * authenticated user id, which the JWT middleware puts in `req.usuario`,
 * is a parameter.
 */
module Api {
  import opened Modelos
  import opened Categorias
  import opened Catalogo
  import opened Transacciones
  import opened Password
  import opened Siembra

  /** The unique index on `email` of the user schema. */
  ghost predicate EmailsUnicos(usuarios: map<Id, string>)
  {
    forall a, b :: a in usuarios && b in usuarios && usuarios[a] == usuarios[b] ==> a == b
  }

  class Almacen {
    var categorias: map<Id, Categoria>
    var transacciones: map<Id, Transaccion>
    var usuarios: map<Id, string>
    var siguienteId: nat

    /** What the schemas, the unique indexes and the handlers together keep
        true of the stored documents. */
    ghost predicate Valid()
      reads this
    {
      && (forall k :: k in categorias ==> k < siguienteId && CategoriaValida(categorias[k]))
      && (forall k :: k in categorias && categorias[k].isDefault ==> categorias[k].isVisible)
      && NombresUnicos(categorias)
      && (forall k :: k in transacciones ==> k < siguienteId && TransaccionValida(transacciones[k]))
      && (forall k :: k in usuarios ==> k < siguienteId && usuarios[k] != "")
      && EmailsUnicos(usuarios)
    }

    constructor ()
      ensures Valid()
      ensures categorias == map[] && transacciones == map[] && usuarios == map[] && siguienteId == 0
    {
      categorias := map[];
      transacciones := map[];
      usuarios := map[];
      siguienteId := 0;
    }

    // -------------------------------------------------------------------
    // routes/categorias.js
    // -------------------------------------------------------------------

    /** `save()` of a new, validated category: the document gets a fresh id;
        the unique index refuses it when its user already has the name. */
    method GuardarCategoria(c: Categoria) returns (r: Result<Id>)
      requires Valid() && CategoriaValida(c) && c.isVisible
      modifies this
      ensures Valid()
      ensures siguienteId == old(siguienteId) + 1
      ensures transacciones == old(transacciones) && usuarios == old(usuarios)
      ensures r.Ok? <==> !old(NombreOcupado(categorias, c.usuario, c.nombre))
      ensures r.Ok? ==> r.value == old(siguienteId) && categorias == old(categorias)[r.value := c]
      ensures r.Err? ==> r == Err(Failure) && categorias == old(categorias)
    {
      var id := siguienteId;
      siguienteId := siguienteId + 1;
      if NombreOcupado(categorias, c.usuario, c.nombre) {
        return Err(Failure);
      }
      categorias := categorias[id := c];
      r := Ok(id);
    }

    /** POST /api/categorias. A name the caller already uses, whatever its
        type, is refused; otherwise the new category is stored as a
        non-default one of the caller. A body the schema refuses fails. */
    method CrearCategoria(usuario: Id, campos: CamposCategoria) returns (r: Result<Id>)
      requires Valid()
      modifies this
      ensures Valid()
      ensures transacciones == old(transacciones) && usuarios == old(usuarios)
      ensures r == Err(BadRequest) <==> campos.nombre.Some? && old(NombreOcupado(categorias, usuario, campos.nombre.value))
      ensures r == Err(Failure) <==>
        !(campos.nombre.Some? && old(NombreOcupado(categorias, usuario, campos.nombre.value)))
        && NuevaCategoria(campos.nombre, campos.tipo, usuario, None, campos.orden).None?
      ensures r.Err? ==> (r == Err(BadRequest) || r == Err(Failure)) && categorias == old(categorias)
      ensures r.Ok? ==>
        (r.value !in old(categorias)
         && categorias == old(categorias)[r.value :=
              Categoria(campos.nombre.value, campos.tipo.value, usuario, false, GetOr(campos.orden, 0), true)])
    {
      if campos.nombre.Some? && NombreOcupado(categorias, usuario, campos.nombre.value) {
        return Err(BadRequest);
      }
      var doc := NuevaCategoria(campos.nombre, campos.tipo, usuario, None, campos.orden);
      if doc.None? {
        return Err(Failure);
      }
      r := GuardarCategoria(doc.value);
    }

    /** PUT /api/categorias/:id. Unknown id: NotFound; another user's
        category: Unauthorized. A new name held by another category of the
        caller is refused; keeping the current name skips the check. The
        merged document must pass the schema's `tipo` enum (see Fusionar
        for what the source does without update validators). */
    method ActualizarCategoria(usuario: Id, id: Id, campos: CamposCategoria) returns (r: Result<Categoria>)
      requires Valid()
      modifies this
      ensures Valid()
      ensures transacciones == old(transacciones) && usuarios == old(usuarios) && siguienteId == old(siguienteId)
      ensures r.Err? ==> categorias == old(categorias)
      ensures id !in old(categorias) ==> r == Err(NotFound)
      ensures id in old(categorias) && old(categorias)[id].usuario != usuario ==> r == Err(Unauthorized)
      ensures id in old(categorias) && old(categorias)[id].usuario == usuario ==>
        var c := old(categorias)[id];
        var nueva := Fusionar(c, campos);
        if Presente(campos.nombre) && campos.nombre.value != c.nombre
           && NombreOcupadoPorOtra(old(categorias), usuario, campos.nombre.value, id)
        then r == Err(BadRequest)
        else if !TipoValido(nueva.tipo) then r == Err(Failure)
        else r == Ok(nueva) && categorias == old(categorias)[id := nueva]
    {
      if id !in categorias {
        return Err(NotFound);
      }
      var c := categorias[id];
      if c.usuario != usuario {
        return Err(Unauthorized);
      }
      if Presente(campos.nombre) && campos.nombre.value != c.nombre {
        if NombreOcupadoPorOtra(categorias, usuario, campos.nombre.value, id) {
          return Err(BadRequest);
        }
      }
      var nueva := Fusionar(c, campos);
      if !TipoValido(nueva.tipo) {
        return Err(Failure);
      }
      categorias := categorias[id := nueva];
      r := Ok(nueva);
    }

    /** Step 3 of DELETE, `Transaccion.updateMany({ categoria: de }, { categoria: a })`:
        rewrites every reference to `de` and reports `modifiedCount`. The
        filter is not scoped to the user. */
    method ReasignarTransacciones(de: Id, a: Id) returns (n: nat)
      requires Valid() && de != a
      modifies this
      ensures Valid()
      ensures categorias == old(categorias) && usuarios == old(usuarios) && siguienteId == old(siguienteId)
      ensures transacciones == Reasignar(old(transacciones), de, a)
      ensures n == |Referencias(old(transacciones), de)|
      ensures old(Integridad(categorias, transacciones)) && a in categorias ==> Integridad(categorias, transacciones)
    {
      var antes := transacciones;
      transacciones := Reasignar(transacciones, de, a);
      n := |Modificados(antes, transacciones)|;
      ReasignarCuenta(antes, de, a);
    }

    /** Step 4 of DELETE, `Categoria.findByIdAndDelete(id)`. References stay
        resolvable only if none is left to the removed category. */
    method BorrarCategoria(id: Id)
      requires Valid()
      modifies this
      ensures Valid()
      ensures categorias == old(categorias) - {id}
      ensures transacciones == old(transacciones) && usuarios == old(usuarios) && siguienteId == old(siguienteId)
      ensures old(Integridad(categorias, transacciones)) && Referencias(transacciones, id) == {}
              ==> Integridad(categorias, transacciones)
    {
      categorias := categorias - {id};
      if Referencias(transacciones, id) == {} {
        forall k | k in transacciones
          ensures transacciones[k].categoria != id
        {
          assert k !in Referencias(transacciones, id);
        }
      }
    }

    /** DELETE /api/categorias/:id as the handler evidently intends it.
        Unknown id: NotFound; another user's: Unauthorized; a default
        category: BadRequest; no fallback of the category's type for the
        user: Failure. In all these cases nothing changes. Otherwise every
        transaction that referenced the category is moved to the fallback,
        then the category is removed, and the count of moved transactions is
        returned; a store whose references all resolve keeps them resolving. */
    method EliminarCategoria(usuario: Id, id: Id) returns (r: Result<nat>)
      requires Valid()
      modifies this
      ensures Valid()
      ensures usuarios == old(usuarios) && siguienteId == old(siguienteId)
      ensures r.Err? ==> categorias == old(categorias) && transacciones == old(transacciones)
      ensures id !in old(categorias) ==> r == Err(NotFound)
      ensures id in old(categorias) && old(categorias)[id].usuario != usuario ==> r == Err(Unauthorized)
      ensures id in old(categorias) && old(categorias)[id].usuario == usuario && old(categorias)[id].isDefault
              ==> r == Err(BadRequest)
      ensures id in old(categorias) && old(categorias)[id].usuario == usuario && !old(categorias)[id].isDefault
              ==> var f := ObtenerDefaultId(old(categorias), usuario, old(categorias)[id].tipo);
                  if f.None? then r == Err(Failure)
                  else r == Ok(|Referencias(old(transacciones), id)|)
                       && transacciones == Reasignar(old(transacciones), id, f.value)
                       && categorias == old(categorias) - {id}
      ensures old(Integridad(categorias, transacciones)) ==> Integridad(categorias, transacciones)
    {
      if id !in categorias {
        return Err(NotFound);
      }
      var c := categorias[id];
      if c.usuario != usuario {
        return Err(Unauthorized);
      }
      if c.isDefault {
        return Err(BadRequest);
      }
      // The source passes `categoriaAEliminar.tipo`, a name defined nowhere
      // (routes/categorias.js:151); the category just loaded is meant.
      var f := ObtenerDefaultId(categorias, usuario, c.tipo);
      if f.None? {
        return Err(Failure);
      }
      // The fallback is a default category, the deleted one is not.
      assert f.value != id;
      var n := ReasignarTransacciones(id, f.value);
      ReasignarEfecto(old(transacciones), id, f.value);
      BorrarCategoria(id);
      r := Ok(n);
    }

    /** DELETE /api/categorias/:id as written: past the three guards the
        handler reads the undefined `categoriaAEliminar` (and would next use
        the never imported `Transaccion`), so the ReferenceError lands in
        the catch and every such delete answers 500 and changes nothing. */
    method EliminarCategoriaTalComoEsta(usuario: Id, id: Id) returns (r: Result<nat>)
      ensures r.Err?
      ensures id !in categorias ==> r == Err(NotFound)
      ensures id in categorias && categorias[id].usuario != usuario ==> r == Err(Unauthorized)
      ensures id in categorias && categorias[id].usuario == usuario && categorias[id].isDefault
              ==> r == Err(BadRequest)
      ensures id in categorias && categorias[id].usuario == usuario && !categorias[id].isDefault
              ==> r == Err(Failure)
    {
      if id !in categorias {
        return Err(NotFound);
      }
      var c := categorias[id];
      if c.usuario != usuario {
        return Err(Unauthorized);
      }
      if c.isDefault {
        return Err(BadRequest);
      }
      r := Err(Failure);
    }

    /** PATCH /api/categorias/:id/visibility. A value that is not a boolean
        (None) is refused before any lookup; the lookup is scoped to the
        caller, so another user's category is NotFound; hiding a default
        category is refused. Otherwise only `isVisible` changes. */
    method CambiarVisibilidad(usuario: Id, id: Id, isVisible: Option<bool>) returns (r: Result<Categoria>)
      requires Valid()
      modifies this
      ensures Valid()
      ensures transacciones == old(transacciones) && usuarios == old(usuarios) && siguienteId == old(siguienteId)
      ensures r.Err? ==> categorias == old(categorias)
      ensures isVisible.None? ==> r == Err(BadRequest)
      ensures isVisible.Some? && !(id in old(categorias) && old(categorias)[id].usuario == usuario)
              ==> r == Err(NotFound)
      ensures isVisible.Some? && id in old(categorias) && old(categorias)[id].usuario == usuario ==>
        var c := old(categorias)[id];
        if c.isDefault && !isVisible.value then r == Err(BadRequest)
        else r == Ok(c.(isVisible := isVisible.value)) && categorias == old(categorias)[id := r.value]
    {
      if isVisible.None? {
        return Err(BadRequest);
      }
      if !(id in categorias && categorias[id].usuario == usuario) {
        return Err(NotFound);
      }
      var c := categorias[id];
      if c.isDefault && !isVisible.value {
        return Err(BadRequest);
      }
      var nueva := c.(isVisible := isVisible.value);
      categorias := categorias[id := nueva];
      r := Ok(nueva);
    }

    // -------------------------------------------------------------------
    // utils/crearCategoriasDefault.js
    // -------------------------------------------------------------------

    /** The body of `crearCategoriasDefault` on a list of entries: every
        entry, in order, is built as a default category of the user and
        saved under the next fresh id. A save the unique index refuses does
        not stop the others and nothing saved is undone; the call then
        fails. Transactions and users are untouched. */
    method Sembrar(todas: seq<Entrada>, usuarioId: Id) returns (r: Result<()>)
      requires Valid() && EntradasAceptables(todas)
      modifies this
      ensures Valid()
      ensures transacciones == old(transacciones) && usuarios == old(usuarios)
      ensures siguienteId == old(siguienteId) + |todas|
      ensures (categorias, r.Ok?) == Sembrado(todas, old(categorias), old(siguienteId), usuarioId, |todas|)
      ensures r.Err? ==> r.error == Failure
    {
      ghost var cats0 := categorias;
      ghost var n0 := siguienteId;
      var fallo := false;
      var i := 0;
      while i < |todas|
        invariant 0 <= i <= |todas|
        invariant Valid()
        invariant siguienteId == n0 + i
        invariant transacciones == old(transacciones) && usuarios == old(usuarios)
        invariant (categorias, !fallo) == Sembrado(todas, cats0, n0, usuarioId, i)
      {
        // The callback of the `map`: a new default category of the user.
        var e := todas[i];
        var doc := NuevaCategoria(Some(e.nombre), Some(e.tipo), usuarioId, Some(true), Some(e.orden));
        assert doc == Some(Sembrada(e, usuarioId));
        var g := GuardarCategoria(doc.value);
        if g.Err? {
          fallo := true;
        }
        i := i + 1;
      }
      r := if fallo then Err(Failure) else Ok(());
    }

    /** `crearCategoriasDefault(usuarioId)`: the income entries of the
        catalog, then the expense entries. */
    method CrearCategoriasDefault(usuarioId: Id) returns (r: Result<()>)
      requires Valid()
      modifies this
      ensures Valid()
      ensures transacciones == old(transacciones) && usuarios == old(usuarios)
      ensures siguienteId == old(siguienteId) + |CATALOGO|
      ensures (categorias, r.Ok?) == Sembrado(CATALOGO, old(categorias), old(siguienteId), usuarioId, |CATALOGO|)
      ensures r.Err? ==> r.error == Failure
    {
      CatalogoAceptable();
      r := Sembrar(INGRESOS + EGRESOS, usuarioId);
    }

    // -------------------------------------------------------------------
    // routes/transacciones.js
    // -------------------------------------------------------------------

    /** POST /api/transacciones: the body with `usuario` overwritten by the
        caller, stored under a fresh id; a body the schema refuses is a
        BadRequest. */
    method CrearTransaccion(usuario: Id, campos: CamposTransaccion, ahora: int) returns (r: Result<Id>)
      requires Valid()
      modifies this
      ensures Valid()
      ensures categorias == old(categorias) && usuarios == old(usuarios)
      ensures var doc := NuevaTransaccion(campos.(usuario := Some(usuario)), ahora);
        && (doc.None? ==> r == Err(BadRequest) && transacciones == old(transacciones))
        && (doc.Some? ==> r.Ok? && r.value !in old(transacciones)
                          && transacciones == old(transacciones)[r.value := doc.value])
      ensures r.Ok? ==> transacciones[r.value].usuario == usuario
    {
      var doc := NuevaTransaccion(campos.(usuario := Some(usuario)), ahora);
      if doc.None? {
        return Err(BadRequest);
      }
      var id := siguienteId;
      siguienteId := siguienteId + 1;
      transacciones := transacciones[id := doc.value];
      r := Ok(id);
    }

    /** GET /api/transacciones/:id, matched on both id and owner. */
    method ObtenerTransaccion(usuario: Id, id: Id) returns (r: Result<Transaccion>)
      ensures r.Ok? <==> id in transacciones && transacciones[id].usuario == usuario
      ensures r.Ok? ==> r.value == transacciones[id]
      ensures r.Err? ==> r.error == NotFound
    {
      if id in transacciones && transacciones[id].usuario == usuario {
        r := Ok(transacciones[id]);
      } else {
        r := Err(NotFound);
      }
    }

    /** PUT /api/transacciones/:id. The update validators run first, so an
        out-of-enum `tipo` is a BadRequest whether or not the id matches;
        then the match on (id, owner); then only the given fields change. */
    method ActualizarTransaccion(usuario: Id, id: Id, campos: CamposTransaccion) returns (r: Result<Transaccion>)
      requires Valid()
      modifies this
      ensures Valid()
      ensures categorias == old(categorias) && usuarios == old(usuarios) && siguienteId == old(siguienteId)
      ensures r.Err? ==> transacciones == old(transacciones)
      ensures !CamposValidos(campos) ==> r == Err(BadRequest)
      ensures CamposValidos(campos) && !(id in old(transacciones) && old(transacciones)[id].usuario == usuario)
              ==> r == Err(NotFound)
      ensures CamposValidos(campos) && id in old(transacciones) && old(transacciones)[id].usuario == usuario
              ==> r == Ok(AplicarCampos(old(transacciones)[id], campos))
                  && transacciones == old(transacciones)[id := r.value]
    {
      if !CamposValidos(campos) {
        return Err(BadRequest);
      }
      if !(id in transacciones && transacciones[id].usuario == usuario) {
        return Err(NotFound);
      }
      var t := AplicarCampos(transacciones[id], campos);
      transacciones := transacciones[id := t];
      r := Ok(t);
    }

    /** DELETE /api/transacciones/:id: removes exactly the matched
        transaction. */
    method EliminarTransaccion(usuario: Id, id: Id) returns (r: Result<()>)
      requires Valid()
      modifies this
      ensures Valid()
      ensures categorias == old(categorias) && usuarios == old(usuarios) && siguienteId == old(siguienteId)
      ensures r.Ok? <==> id in old(transacciones) && old(transacciones)[id].usuario == usuario
      ensures r.Ok? ==> transacciones == old(transacciones) - {id}
      ensures r.Err? ==> r.error == NotFound && transacciones == old(transacciones)
    {
      if !(id in transacciones && transacciones[id].usuario == usuario) {
        return Err(NotFound);
      }
      transacciones := transacciones - {id};
      r := Ok(());
    }

    // -------------------------------------------------------------------
    // routes/auth.js
    // -------------------------------------------------------------------

    /** POST /api/auth/registro: an email already registered is refused and
        nothing is created; an empty email is refused by the schema's
        `required` when the user is saved (500); otherwise a user with a
        generated password is stored under a fresh id and the password is
        returned. */
    method Registrar(email: string, digito: nat, mayuscula: nat, especial: nat, resto: seq<nat>, elecciones: seq<nat>)
      returns (r: Result<(Id, string)>)
      requires Valid()
      requires digito < |DIGITOS| && mayuscula < |MAYUSCULAS| && especial < |ESPECIALES|
      requires |resto| == LONGITUD - 3 && forall k :: 0 <= k < |resto| ==> resto[k] < |CARACTERES|
      requires EleccionesValidas(LONGITUD, elecciones)
      modifies this
      ensures Valid()
      ensures categorias == old(categorias) && transacciones == old(transacciones)
      ensures email in old(usuarios).Values ==> r == Err(BadRequest)
      ensures email !in old(usuarios).Values && email == "" ==> r == Err(Failure)
      ensures email !in old(usuarios).Values && email != "" ==> r.Ok?
      ensures r.Err? ==> usuarios == old(usuarios)
      ensures r.Ok? ==> r.value.0 !in old(usuarios) && usuarios == old(usuarios)[r.value.0 := email]
      ensures r.Ok? ==> |r.value.1| == LONGITUD && forall k :: 0 <= k < |r.value.1| ==> r.value.1[k] in CARACTERES
      ensures r.Ok? ==> exists k :: 0 <= k < |r.value.1| && r.value.1[k] in DIGITOS
      ensures r.Ok? ==> exists k :: 0 <= k < |r.value.1| && r.value.1[k] in MAYUSCULAS
      ensures r.Ok? ==> exists k :: 0 <= k < |r.value.1| && r.value.1[k] in ESPECIALES
    {
      if email in usuarios.Values {
        return Err(BadRequest);
      }
      var password := GenerarPassword(digito, mayuscula, especial, resto, elecciones);
      if email == "" {
        return Err(Failure);
      }
      var id := siguienteId;
      siguienteId := siguienteId + 1;
      usuarios := usuarios[id := email];
      r := Ok((id, password));
    }
  }
}
